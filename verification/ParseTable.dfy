/** lr_parse_table: the action and goto tables, with precedence deciding between competing
    actions. Whatever the resolution picks, the tables hold only actions the automaton offers. */
module ParseTable {
  import opened Cfg
  import opened LrAutomaton

  /** Table entries. The generator codes them as integers: j > 0, -p, 0 and None. */
  datatype Action = Shift(state: nat) | Reduce(prod: nat) | Accept | Forbidden

  /** Where the reduce lookaheads come from: Follow[name] or p.lookaheads[st]. */
  datatype Lookaheads = SLR(follow: map<Symbol, set<Symbol>>) | LALR(sets: map<(nat, Item), set<Symbol>>)
  {
    ghost predicate Defined(g: Cfg, A: Lr0) {
      forall s, p: nat :: 0 <= s < |A.states| && p > 0 && p < |g.productions| && Item(p, |g.productions[p].rhs|) in A.states[s].items ==> Known(g, s, p)
    }

    predicate Known(g: Cfg, s: nat, p: nat)
      requires p < |g.productions|
    {
      match this
      case SLR(follow) => g.productions[p].name in follow
      case LALR(sets) => (s, Item(p, |g.productions[p].rhs|)) in sets
    }

    function Of(g: Cfg, s: nat, p: nat): set<Symbol>
      requires p < |g.productions| && Known(g, s, p)
    {
      match this
      case SLR(follow) => follow[g.productions[p].name]
      case LALR(sets) => sets[(s, Item(p, |g.productions[p].rhs|))]
    }
  }

  type ActionRow = map<Symbol, Action>
  type GotoRow = map<Symbol, nat>

  datatype Tables = Tables(action: seq<ActionRow>, goto: seq<GotoRow>)

  /** Item `it` of state s offers action `act` on the symbol a. */
  ghost predicate Offers(g: Cfg, A: Lr0, L: Lookaheads, s: nat, it: Item, a: Symbol, act: Action)
    requires s < |A.states|
  {
    match act
    case Shift(j) => a.Terminal? && DotBefore(g, it, a) && GotoState(g, A, s, a) == j
    case Reduce(p) => Complete(g, it) && it.prod == p > 0 && L.Known(g, s, p) && a in L.Of(g, s, p)
    case Accept => Complete(g, it) && it.prod == 0 && a == EndMarker
    case Forbidden => false
  }

  /** Some item of state s offers `act` on a. */
  ghost predicate Candidate(g: Cfg, A: Lr0, L: Lookaheads, s: nat, a: Symbol, act: Action)
    requires s < |A.states|
  {
    exists it :: it in A.states[s].items && Offers(g, A, L, s, it, a, act)
  }

  /** Two different actions compete for the symbol a in state s. */
  ghost predicate Conflict(g: Cfg, A: Lr0, L: Lookaheads, s: nat, a: Symbol)
    requires s < |A.states|
  {
    exists x, y :: x != y && Candidate(g, A, L, s, a, x) && Candidate(g, A, L, s, a, y)
  }

  ghost predicate ConflictFree(g: Cfg, A: Lr0, L: Lookaheads) {
    forall s: nat, a :: s < |A.states| ==> !Conflict(g, A, L, s, a)
  }

  /** Row s holds only offered actions, leaves no offered symbol out, and is Forbidden only where
      actions compete. */
  ghost predicate RowOk(g: Cfg, A: Lr0, L: Lookaheads, s: nat, row: ActionRow)
    requires s < |A.states|
  {
    && (forall a :: a in row ==> Candidate(g, A, L, s, a, row[a]) || (row[a] == Forbidden && Conflict(g, A, L, s, a)))
    && (forall a, act :: Candidate(g, A, L, s, a, act) ==> a in row)
  }

  ghost predicate GotoRowOk(g: Cfg, A: Lr0, s: nat, row: GotoRow)
    requires s < |A.states|
  {
    && (forall n :: n in row ==> n.Nonterminal? && row[n] == GotoState(g, A, s, n))
    && (forall n: Symbol :: n.Nonterminal? && GotoState(g, A, s, n) >= 0 ==> n in row)
  }

  ghost predicate TablesOk(g: Cfg, A: Lr0, L: Lookaheads, T: Tables) {
    && |T.action| == |T.goto| == |A.states|
    && (forall s: nat :: s < |A.states| ==> RowsOk(g, A, L, T, s))
  }

  ghost predicate RowsOk(g: Cfg, A: Lr0, L: Lookaheads, T: Tables, s: nat)
    requires s < |T.action| == |T.goto| == |A.states|
  {
    RowOk(g, A, L, s, T.action[s]) && GotoRowOk(g, A, s, T.goto[s])
  }

  /** A symbol without competition gets exactly the one action offered for it. */
  lemma UncontestedEntry(g: Cfg, A: Lr0, L: Lookaheads, s: nat, row: ActionRow, a: Symbol, act: Action)
    requires s < |A.states| && RowOk(g, A, L, s, row)
    requires Candidate(g, A, L, s, a, act) && !Conflict(g, A, L, s, a)
    ensures a in row && row[a] == act
  {
  }

  // ---- Precedence ----------------------------------------------------------------------

  datatype Verdict = TakeShift | TakeReduce | TakeNeither

  function TokenPrecedence(g: Cfg, a: Symbol): Precedence {
    if a in g.precedence then g.precedence[a] else NO_PRECEDENCE
  }

  /** The reduction is found after a shift on the same symbol was entered. The precedence compared
      with the token's is that of the rule the shift came from. */
  function ReduceAfterShift(shiftRule: Precedence, token: Precedence): Verdict {
    if shiftRule.level < token.level || (shiftRule.level == token.level && token.assoc == LeftAssoc) then TakeReduce
    else if shiftRule.level == token.level && token.assoc == NonAssoc then TakeNeither
    else TakeShift
  }

  /** The shift is found after a reduction on the same symbol was entered. */
  function ShiftAfterReduce(reduceRule: Precedence, token: Precedence): Verdict {
    if token.level > reduceRule.level ||
      (token.level == reduceRule.level && reduceRule.assoc == RightAssoc) then TakeShift
    else if token.level == reduceRule.level && reduceRule.assoc == NonAssoc then TakeNeither
    else TakeReduce
  }

  /** The rule stated in the generator's comments: compare the reduce rule with the token; the
      higher wins; at equal levels associativity decides. */
  function Documented(reduceRule: Precedence, token: Precedence): Verdict {
    if reduceRule.level > token.level then TakeReduce
    else if reduceRule.level < token.level then TakeShift
    else match reduceRule.assoc
      case LeftAssoc => TakeReduce
      case NonAssoc => TakeNeither
      case RightAssoc => TakeShift
  }

  /** The token's precedence is higher than the rule's, or equal and the given side associates to the
      right. */
  predicate ShiftSide(rule: Precedence, token: Precedence, assoc: Assoc) {
    rule.level < token.level || (rule.level == token.level && assoc == RightAssoc)
  }

  predicate ReduceSide(rule: Precedence, token: Precedence, assoc: Assoc) {
    rule.level > token.level || (rule.level == token.level && assoc == LeftAssoc)
  }

  /** When what happens with the shift entered first is what is documented. Below the token, or level with
      a left-associative one, the shift's rule makes it a reduction; above it, or level with a
      right-associative one, a shift; and level with a nonassociative one, an error. */
  predicate OrderAgrees(shiftRule: Precedence, reduceRule: Precedence, token: Precedence) {
    if shiftRule.level < token.level ||
      (shiftRule.level == token.level && token.assoc == LeftAssoc) then ReduceSide(reduceRule, token, reduceRule.assoc)
    else if shiftRule.level > token.level || token.assoc == RightAssoc then ShiftSide(reduceRule, token, reduceRule.assoc)
    else reduceRule.level == token.level && reduceRule.assoc == NonAssoc
  }

  /** Entering the reduction first gives the documented verdict. Entering the shift first compares the
      rule the shift came from instead, and gives it exactly when the two happen to agree. */
  lemma ResolutionDependsOnOrder(shiftRule: Precedence, reduceRule: Precedence, token: Precedence)
    ensures ShiftAfterReduce(reduceRule, token) == Documented(reduceRule, token)
    ensures ReduceAfterShift(shiftRule, token) == Documented(reduceRule, token) <==>
      OrderAgrees(shiftRule, reduceRule, token)
  {
  }

  // ---- One entry -----------------------------------------------------------------------

  /** The entry of one symbol in st_action with the item recorded for it in st_actionp. */
  datatype Cell = Vacant | Cell(action: Action, item: Item)
  {
    /** `r is not None`: present and not wiped out by a nonassoc conflict. */
    predicate Taken() {
      Cell? && action != Forbidden
    }
  }

  datatype Entered = Entered(cell: Cell) | LalrError

  /** A reduction by the finished item `it` meets the entry of the symbol a. */
  function EnterReduce(g: Cfg, c: Cell, a: Symbol, it: Item): Entered
    requires ValidItem(g, it) && (c.Cell? ==> ValidItem(g, c.item))
    requires c.Cell? && c.action.Reduce? ==> c.action.prod < |g.productions|
  {
    if !c.Taken() then Entered(Cell(Reduce(it.prod), it))
    else match c.action
      case Shift(_) =>
        (match ReduceAfterShift(g.productions[c.item.prod].prec, TokenPrecedence(g, a))
         case TakeReduce => Entered(Cell(Reduce(it.prod), it))
         case TakeNeither => Entered(Cell(Forbidden, c.item))
         case TakeShift => Entered(c))
      case Reduce(q) =>
        Entered(if g.productions[q].line > g.productions[it.prod].line then Cell(Reduce(it.prod), it) else c)
      case _ => LalrError
  }

  /** A shift to state j by the item `it` meets the entry of the symbol a. */
  function EnterShift(g: Cfg, c: Cell, a: Symbol, it: Item, j: nat): Entered
    requires c.Cell? ==> ValidItem(g, c.item)
  {
    if !c.Taken() then Entered(Cell(Shift(j), it))
    else match c.action
      case Shift(i) => if i != j then LalrError else Entered(c)
      case Reduce(_) =>
        (match ShiftAfterReduce(g.productions[c.item.prod].prec, TokenPrecedence(g, a))
         case TakeShift => Entered(Cell(Shift(j), it))
         case TakeNeither => Entered(Cell(Forbidden, c.item))
         case TakeReduce => Entered(c))
      case _ => LalrError
  }

  /** The action item `it` of state s offers on the symbol a, if any. */
  ghost function Offer(g: Cfg, A: Lr0, L: Lookaheads, s: nat, it: Item, a: Symbol): (o: Action)
    requires s < |A.states|
    ensures o == Forbidden ==> forall act :: !Offers(g, A, L, s, it, a, act)
    ensures o != Forbidden ==> forall act :: Offers(g, A, L, s, it, a, act) <==> act == o
  {
    if a.Terminal? && DotBefore(g, it, a) && GotoState(g, A, s, a) >= 0 then Shift(GotoState(g, A, s, a))
    else if Complete(g, it) && it.prod == 0 && a == EndMarker then Accept
    else if Complete(g, it) && it.prod > 0 && L.Known(g, s, it.prod) && a in L.Of(g, s, it.prod) then Reduce(it.prod)
    else Forbidden
  }

  /** One more item, with what it offers, is taken into account for the symbol a. */
  ghost function MeetOffer(g: Cfg, a: Symbol, e: Entered, it: Item, o: Action): Entered
    requires ValidItem(g, it) && EntryOk(g, e)
  {
    if e.LalrError? then LalrError
    else match o
      case Forbidden => e
      case Accept => Entered(Cell(Accept, it))
      case Reduce(_) => EnterReduce(g, e.cell, a, it)
      case Shift(j) => EnterShift(g, e.cell, a, it, j)
  }

  ghost function Meet(g: Cfg, A: Lr0, L: Lookaheads, s: nat, a: Symbol, e: Entered, it: Item): Entered
    requires s < |A.states| && ValidItem(g, it) && EntryOk(g, e)
  {
    MeetOffer(g, a, e, it, Offer(g, A, L, s, it, a))
  }

  ghost predicate EntryOk(g: Cfg, e: Entered) {
    e.Entered? && e.cell.Cell? ==>
      ValidItem(g, e.cell.item) && (e.cell.action.Reduce? ==> e.cell.action.prod < |g.productions|)
  }

  /** The reference meaning of the table: the entry of the symbol a in state s when the state's first
      k items have met it one after the other. */
  ghost function EntryAfter(g: Cfg, A: Lr0, L: Lookaheads, s: nat, a: Symbol, k: nat): (e: Entered)
    requires s < |A.states| && k <= |A.states[s].items| && ValidItems(g, A.states[s].items)
    ensures EntryOk(g, e)
  {
    if k == 0 then Entered(Vacant)
    else Meet(g, A, L, s, a, EntryAfter(g, A, L, s, a, k - 1), A.states[s].items[k - 1])
  }

  /** An entry is vacant while nothing was offered; otherwise it is one of the offers, or Forbidden
      after two different ones. Only an accept entry met by a reduction is an error. */
  ghost predicate EntryMeaning(seen: set<Action>, e: Entered) {
    match e
    case LalrError => Accept in seen && exists p :: Reduce(p) in seen
    case Entered(Vacant) => seen == {}
    case Entered(Cell(act, _)) =>
      && (act in seen || (act == Forbidden && exists x, y :: x != y && x in seen && y in seen))
      && (Accept in seen ==> act == Accept && forall p :: Reduce(p) !in seen)
  }

  /** The first item of a list keeps its place at the head of its goto. */
  lemma {:induction false} GotoHead(g: Cfg, I: seq<Item>, x: Symbol)
    requires I != [] && DotBefore(g, I[0], x)
    ensures GotoKernel(g, I, x) != [] && GotoKernel(g, I, x)[0] == Item(I[0].prod, I[0].dot + 1)
  {
    if |I| > 1 {
      GotoHead(g, I[..|I| - 1], x);
    }
  }

  /** The finished start item can only be the first item of its state. */
  lemma AcceptItemFirst(g: Cfg, A: Lr0, s: nat, k: nat)
    requires IsAutomaton(g, A) && s < |A.states| && k < |A.states[s].items|
    requires A.states[s].items[k] == Item(0, 1)
    ensures k == 0
  {
    var J, K := A.states[s].items, A.states[s].kernel;
    assert J[k] in J;
    ItemKinds(g, A, s, Item(0, 1));
    assert StateOk(g, A, s);
    var r, x :| 0 <= r < s && K == GotoKernel(g, A.states[r].items, x);
    GotoHas(g, A.states[r].items, x, Item(0, 1));
    StartItemOnlyAtStart(g, A, r);
    assert StateOk(g, A, 0);
    GotoHead(g, A.states[0].items, x);
    ClosureUnrepeated(g, K, J);
    assert J[0] == K[0];
  }

  lemma MeetReduce(g: Cfg, seen: set<Action>, c: Cell, a: Symbol, it: Item)
    requires ValidItem(g, it) && EntryOk(g, Entered(c)) && EntryMeaning(seen, Entered(c)) && Forbidden !in seen
    ensures EntryMeaning(seen + {Reduce(it.prod)}, EnterReduce(g, c, a, it))
  {
    var seen' := seen + {Reduce(it.prod)};
    assert Reduce(it.prod) in seen';
    if c.Taken() {
      assert c.action in seen';
    } else if c.Cell? {
      var x, y :| x != y && x in seen && y in seen;
      assert x in seen' && y in seen';
    }
  }

  lemma MeetShift(g: Cfg, seen: set<Action>, c: Cell, a: Symbol, it: Item, j: nat)
    requires EntryOk(g, Entered(c)) && EntryMeaning(seen, Entered(c)) && Forbidden !in seen && Accept !in seen
    requires forall i :: Shift(i) in seen ==> i == j
    ensures EntryMeaning(seen + {Shift(j)}, EnterShift(g, c, a, it, j))
  {
    var seen' := seen + {Shift(j)};
    assert Shift(j) in seen';
    if c.Taken() {
      assert c.action in seen';
    } else if c.Cell? {
      var x, y :| x != y && x in seen && y in seen;
      assert x in seen' && y in seen';
    }
  }

  lemma MeetIsMeaningful(g: Cfg, seen: set<Action>, e: Entered, a: Symbol, it: Item, o: Action)
    requires ValidItem(g, it) && EntryOk(g, e) && EntryMeaning(seen, e) && Forbidden !in seen
    requires o.Accept? ==> seen == {}
    requires o.Reduce? ==> o.prod == it.prod
    requires o.Shift? ==> Accept !in seen && forall i :: Shift(i) in seen ==> i == o.state
    ensures EntryMeaning(if o == Forbidden then seen else seen + {o}, MeetOffer(g, a, e, it, o))
  {
    if e.LalrError? {
      var p :| Reduce(p) in seen;
      assert Reduce(p) in seen + {o};
    } else {
      match o {
        case Forbidden =>
        case Accept =>
        case Reduce(_) => MeetReduce(g, seen, e.cell, a, it);
        case Shift(j) => MeetShift(g, seen, e.cell, a, it, j);
      }
    }
  }

  // ---- The list of offers --------------------------------------------------------------

  ghost function Fold(g: Cfg, a: Symbol, items: seq<Item>, offers: seq<Action>, k: nat): (e: Entered)
    requires ValidItems(g, items) && |offers| == |items| && k <= |items|
    ensures EntryOk(g, e)
  {
    if k == 0 then Entered(Vacant)
    else
      assert ValidItem(g, items[k - 1]);
      MeetOffer(g, a, Fold(g, a, items, offers, k - 1), items[k - 1], offers[k - 1])
  }

  ghost function OffersOn(g: Cfg, A: Lr0, L: Lookaheads, s: nat, a: Symbol): (offers: seq<Action>)
    requires s < |A.states|
    ensures |offers| == |A.states[s].items|
  {
    seq(|A.states[s].items|, k requires 0 <= k < |A.states[s].items| => Offer(g, A, L, s, A.states[s].items[k], a))
  }

  lemma {:induction false} EntryIsFold(g: Cfg, A: Lr0, L: Lookaheads, s: nat, a: Symbol, k: nat)
    requires s < |A.states| && ValidItems(g, A.states[s].items) && k <= |A.states[s].items|
    ensures EntryAfter(g, A, L, s, a, k) == Fold(g, a, A.states[s].items, OffersOn(g, A, L, s, a), k)
  {
    if k > 0 {
      EntryIsFold(g, A, L, s, a, k - 1);
    }
  }

  /** Reductions are offered by finished items of their rules. */
  ghost predicate OwnOffers(items: seq<Item>, offers: seq<Action>) {
    && |offers| == |items|
    && forall j {:trigger offers[j]} :: 0 <= j < |offers| && offers[j].Reduce? ==> offers[j].prod == items[j].prod
  }

  /** What a list of offers on one symbol looks like: acceptance is offered by the first item only and
      never together with a shift, and all shifts lead to one state. */
  ghost predicate Fits(items: seq<Item>, offers: seq<Action>) {
    && OwnOffers(items, offers)
    && (forall j {:trigger offers[j]} :: 0 <= j < |offers| && offers[j] == Accept ==> j == 0)
    && (forall f, j {:trigger offers[f], offers[j]} :: 0 <= f < |offers| && 0 <= j < |offers| && offers[f].Shift? ==>
      offers[j] != Accept && (offers[j].Shift? ==> offers[j] == offers[f]))
  }

  lemma OffersFit(g: Cfg, A: Lr0, L: Lookaheads, s: nat, a: Symbol)
    requires IsAutomaton(g, A) && s < |A.states|
    ensures Fits(A.states[s].items, OffersOn(g, A, L, s, a))
  {
    var items, offers := A.states[s].items, OffersOn(g, A, L, s, a);
    forall j | 0 <= j < |offers| && offers[j] == Accept ensures j == 0 {
      AcceptItemFirst(g, A, s, j);
    }
  }

  /** The actions that the first k items offer. */
  ghost function Seen(offers: seq<Action>, k: nat): set<Action>
    requires k <= |offers|
  {
    if k == 0 then {} else Seen(offers, k - 1) + if offers[k - 1] == Forbidden then {} else {offers[k - 1]}
  }

  lemma {:induction false} SeenHas(offers: seq<Action>, k: nat, act: Action)
    requires k <= |offers|
    ensures act in Seen(offers, k) <==> act != Forbidden && exists j :: 0 <= j < k && offers[j] == act
  {
    if k > 0 {
      SeenHas(offers, k - 1, act);
    }
  }

  lemma FoldStep(g: Cfg, a: Symbol, items: seq<Item>, offers: seq<Action>, k: nat, e: Entered)
    requires ValidItems(g, items) && Fits(items, offers) && k < |items|
    requires EntryOk(g, e) && EntryMeaning(Seen(offers, k), e)
    ensures ValidItem(g, items[k]) && EntryMeaning(Seen(offers, k + 1), MeetOffer(g, a, e, items[k], offers[k]))
  {
    var seen := Seen(offers, k);
    assert ValidItem(g, items[k]);
    SeenHas(offers, k, Forbidden);
    SeenHas(offers, k, Accept);
    forall i | Shift(i) in seen && offers[k].Shift? ensures Shift(i) == offers[k] {
      SeenHas(offers, k, Shift(i));
    }
    MeetIsMeaningful(g, seen, e, a, items[k], offers[k]);
  }

  lemma {:induction false} FoldIsMeaningful(g: Cfg, a: Symbol, items: seq<Item>, offers: seq<Action>, k: nat)
    requires ValidItems(g, items) && Fits(items, offers) && k <= |items|
    ensures EntryMeaning(Seen(offers, k), Fold(g, a, items, offers, k))
  {
    if k > 0 {
      FoldIsMeaningful(g, a, items, offers, k - 1);
      FoldStep(g, a, items, offers, k - 1, Fold(g, a, items, offers, k - 1));
    }
  }

  /** Whatever precedence decides on the way, an entry is absent, an error, or an action offered. */
  lemma EntryIsMeaningful(g: Cfg, A: Lr0, L: Lookaheads, s: nat, a: Symbol, k: nat)
    requires IsAutomaton(g, A) && s < |A.states| && k <= |A.states[s].items| && ValidItems(g, A.states[s].items)
    ensures EntryMeaning(Seen(OffersOn(g, A, L, s, a), k), EntryAfter(g, A, L, s, a, k))
  {
    OffersFit(g, A, L, s, a);
    FoldIsMeaningful(g, a, A.states[s].items, OffersOn(g, A, L, s, a), k);
    EntryIsFold(g, A, L, s, a, k);
  }

  // ---- Which reduction is kept ---------------------------------------------------------

  /** Of the reductions offered by the items from number lo up to hi, number i is by the rule that was
      defined first, and on equal lines it comes first. */
  ghost predicate Earliest(g: Cfg, offers: seq<Action>, i: nat, lo: nat, hi: nat) {
    && lo <= i < hi <= |offers| && offers[i].Reduce? && offers[i].prod < |g.productions|
    && forall j {:trigger offers[j]} :: lo <= j < hi && offers[j].Reduce? ==> Sooner(g, offers[i].prod, i, offers[j].prod, j)
  }

  /** Rule p, offered by item number i, goes before rule q, offered by item number j. */
  predicate Sooner(g: Cfg, p: nat, i: nat, q: nat, j: nat) {
    && p < |g.productions| && q < |g.productions|
    && (g.productions[p].line < g.productions[q].line || (g.productions[p].line == g.productions[q].line && i <= j))
  }

  ghost predicate ShiftBefore(offers: seq<Action>, n: nat) {
    exists f :: 0 <= f < n <= |offers| && offers[f].Shift?
  }

  /** Where entries come from: a vacant one has met no offer, and a shift or an error needs a shift item. */
  lemma {:induction false} FoldKinds(g: Cfg, a: Symbol, items: seq<Item>, offers: seq<Action>, k: nat)
    requires ValidItems(g, items) && OwnOffers(items, offers) && k <= |items|
    requires Fold(g, a, items, offers, k).Entered?
    ensures var c := Fold(g, a, items, offers, k).cell;
            && (c.Vacant? ==> forall j {:trigger offers[j]} :: 0 <= j < k ==> offers[j] == Forbidden)
            && (c.Cell? && (c.action.Shift? || c.action == Forbidden) ==> ShiftBefore(offers, k))
  {
    if k > 0 {
      FoldKinds(g, a, items, offers, k - 1);
      if offers[k - 1].Shift? {
        assert ShiftBefore(offers, k);
      }
      if ShiftBefore(offers, k - 1) {
        var f :| 0 <= f < k - 1 && offers[f].Shift?;
        assert ShiftBefore(offers, k);
      }
    }
  }

  /** The reduction that an entry has come to hold: the earliest rule among those offered since item m,
      before which nothing was offered or else a shift. */
  lemma {:induction false} Survivor(g: Cfg, a: Symbol, items: seq<Item>, offers: seq<Action>, k: nat)
    returns (m: nat, i: nat)
    requires ValidItems(g, items) && OwnOffers(items, offers) && k <= |items|
    requires var e := Fold(g, a, items, offers, k); e.Entered? && e.cell.Cell? && e.cell.action.Reduce?
    ensures Earliest(g, offers, i, m, k) && Fold(g, a, items, offers, k).cell == Cell(offers[i], items[i])
    ensures m == 0 || ShiftBefore(offers, m)
    decreases k
  {
    var e, n := Fold(g, a, items, offers, k - 1), k - 1;
    assert ValidItem(g, items[n]);
    FoldKinds(g, a, items, offers, n);
    if e.cell.Cell? && e.cell.action.Reduce? {
      m, i := Survivor(g, a, items, offers, n);
      if offers[n].Reduce? && g.productions[offers[i].prod].line > g.productions[offers[n].prod].line {
        i := n;
      }
    } else {
      m, i := if e.cell.Vacant? then 0 else n, n;
    }
  }

  /** Every shift offered loses to every reduction offered, whichever comes first: the token is above the
      shift's rule and below the reduction's, or level and left associative on the side that counts. */
  ghost predicate ShiftsLose(g: Cfg, a: Symbol, items: seq<Item>, offers: seq<Action>)
    requires ValidItems(g, items) && OwnOffers(items, offers)
  {
    forall f, j {:trigger offers[f], offers[j]} ::
      0 <= f < |offers| && 0 <= j < |offers| && offers[f].Shift? && offers[j].Reduce? ==> Loses(g, a, items, f, j)
  }

  ghost predicate Loses(g: Cfg, a: Symbol, items: seq<Item>, f: nat, j: nat)
    requires ValidItems(g, items) && f < |items| && j < |items|
  {
    assert ValidItem(g, items[f]) && ValidItem(g, items[j]);
    var shiftRule, reduceRule := g.productions[items[f].prod].prec, g.productions[items[j].prod].prec;
    var token := TokenPrecedence(g, a);
    && (shiftRule.level < token.level || (shiftRule.level == token.level && token.assoc == LeftAssoc))
    && ReduceSide(reduceRule, token, reduceRule.assoc)
  }

  /** One shift is all that the first k items offer, and they do not accept. */
  ghost predicate OneShift(offers: seq<Action>, k: nat) {
    && k <= |offers|
    && (forall j {:trigger offers[j]} :: 0 <= j < k ==> offers[j] != Accept)
    && (forall f, j {:trigger offers[f], offers[j]} ::
      0 <= f < k && 0 <= j < k && offers[f].Shift? && offers[j].Shift? ==> offers[f] == offers[j])
  }

  ghost predicate SomeReduction(offers: seq<Action>, k: nat) {
    exists j :: 0 <= j < k <= |offers| && offers[j].Reduce?
  }

  lemma SomeNext(offers: seq<Action>, k: nat)
    requires k < |offers|
    ensures SomeReduction(offers, k + 1) <==> SomeReduction(offers, k) || offers[k].Reduce?
  {
    if SomeReduction(offers, k + 1) {
      var j :| 0 <= j < k + 1 && offers[j].Reduce?;
      assert j < k || j == k;
    }
  }

  /** The entry once a reduction has been offered: item i's. */
  ghost predicate EntryFrom(items: seq<Item>, offers: seq<Action>, e: Entered, i: nat) {
    i < |items| == |offers| && e == Entered(Cell(offers[i], items[i]))
  }

  /** One more item when a reduction has been offered before. */
  lemma KeepEarliest(g: Cfg, a: Symbol, items: seq<Item>, offers: seq<Action>, n: nat, e: Entered, i: nat) returns (i': nat)
    requires ValidItems(g, items) && OwnOffers(items, offers) && ShiftsLose(g, a, items, offers) && n < |items|
    requires OneShift(offers, n + 1) && Earliest(g, offers, i, 0, n) && EntryFrom(items, offers, e, i) && EntryOk(g, e)
    ensures ValidItem(g, items[n])
    ensures Earliest(g, offers, i', 0, n + 1) && EntryFrom(items, offers, MeetOffer(g, a, e, items[n], offers[n]), i')
  {
    assert ValidItem(g, items[n]) && ValidItem(g, items[i]);
    i' := i;
    if offers[n].Shift? {
      assert Loses(g, a, items, n, i);
    } else if offers[n].Reduce? && g.productions[offers[i].prod].line > g.productions[offers[n].prod].line {
      i' := n;
    }
  }

  /** The first reduction meets nothing or a shift. */
  lemma EnterEarliest(g: Cfg, a: Symbol, items: seq<Item>, offers: seq<Action>, n: nat, e: Entered)
    requires ValidItems(g, items) && OwnOffers(items, offers) && ShiftsLose(g, a, items, offers) && n < |items|
    requires !SomeReduction(offers, n) && offers[n].Reduce? && EntryOk(g, e) && HeldShift(items, offers, e, n)
    ensures ValidItem(g, items[n])
    ensures Earliest(g, offers, n, 0, n + 1) && EntryFrom(items, offers, MeetOffer(g, a, e, items[n], offers[n]), n)
  {
    assert ValidItem(g, items[n]);
    if e.cell.Cell? {
      var f :| 0 <= f < n && EntryFrom(items, offers, e, f);
      assert Loses(g, a, items, f, n);
    }
  }

  /** Vacant, or the shift that one of the first n items offers. */
  ghost predicate HeldShift(items: seq<Item>, offers: seq<Action>, e: Entered, n: nat) {
    e == Entered(Vacant) || (e.Entered? && e.cell.Cell? && e.cell.action.Shift? && exists f :: 0 <= f < n && EntryFrom(items, offers, e, f))
  }

  lemma HeldNext(g: Cfg, a: Symbol, items: seq<Item>, offers: seq<Action>, n: nat, e: Entered)
    requires ValidItems(g, items) && OwnOffers(items, offers) && n < |items|
    requires OneShift(offers, n + 1) && !SomeReduction(offers, n + 1) && EntryOk(g, e) && HeldShift(items, offers, e, n)
    ensures ValidItem(g, items[n]) && HeldShift(items, offers, MeetOffer(g, a, e, items[n], offers[n]), n + 1)
  {
    assert ValidItem(g, items[n]);
    assert !offers[n].Reduce?;
    if e.cell.Cell? {
      var f :| 0 <= f < n && EntryFrom(items, offers, e, f);
      assert EntryFrom(items, offers, MeetOffer(g, a, e, items[n], offers[n]), f);
    } else if offers[n].Shift? {
      assert EntryFrom(items, offers, MeetOffer(g, a, e, items[n], offers[n]), n);
    }
  }

  /** Then the earliest rule of all is kept. */
  lemma {:induction false} EarliestKept(g: Cfg, a: Symbol, items: seq<Item>, offers: seq<Action>, k: nat)
    returns (i: nat)
    requires ValidItems(g, items) && OwnOffers(items, offers) && ShiftsLose(g, a, items, offers) && OneShift(offers, k)
    ensures var e := Fold(g, a, items, offers, k);
            if SomeReduction(offers, k) then Earliest(g, offers, i, 0, k) && EntryFrom(items, offers, e, i)
            else HeldShift(items, offers, e, k)
    decreases k
  {
    i := 0;
    if k > 0 {
      var e := Fold(g, a, items, offers, k - 1);
      i := EarliestKept(g, a, items, offers, k - 1);
      SomeNext(offers, k - 1);
      if SomeReduction(offers, k - 1) {
        i := KeepEarliest(g, a, items, offers, k - 1, e, i);
      } else if offers[k - 1].Reduce? {
        EnterEarliest(g, a, items, offers, k - 1, e);
        i := k - 1;
      } else {
        HeldNext(g, a, items, offers, k - 1, e);
      }
    }
  }

  // ---- The tables ----------------------------------------------------------------------

  function CellOf(row: map<Symbol, Cell>, a: Symbol): Cell {
    if a in row then row[a] else Vacant
  }

  /** The dictionaries of state s after k items hold the reference entry of every symbol. */
  ghost predicate RowAfter(g: Cfg, A: Lr0, L: Lookaheads, s: nat, row: map<Symbol, Cell>, k: nat)
    requires s < |A.states| && k <= |A.states[s].items| && ValidItems(g, A.states[s].items)
  {
    && (forall a :: EntryAfter(g, A, L, s, a, k) == Entered(CellOf(row, a)))
    && (forall a :: a in row ==> row[a].Cell?)
  }

  ghost predicate ErrorAt(g: Cfg, A: Lr0, L: Lookaheads, s: nat, a: Symbol, k: nat)
    requires s < |A.states| && k <= |A.states[s].items| && ValidItems(g, A.states[s].items)
  {
    EntryAfter(g, A, L, s, a, k).LalrError?
  }

  ghost predicate SomeError(g: Cfg, A: Lr0, L: Lookaheads, s: nat, k: nat)
    requires s < |A.states| && k <= |A.states[s].items| && ValidItems(g, A.states[s].items)
  {
    exists a :: ErrorAt(g, A, L, s, a, k)
  }

  /** Halfway through the lookaheads of item number k: those in `done` have met it. */
  ghost predicate RowDuring(g: Cfg, A: Lr0, L: Lookaheads, s: nat, row: map<Symbol, Cell>, k: nat, done: set<Symbol>)
    requires s < |A.states| && k < |A.states[s].items| && ValidItems(g, A.states[s].items)
  {
    && (forall a :: a !in done ==> EntryAfter(g, A, L, s, a, k) == Entered(CellOf(row, a)))
    && (forall a :: a in done ==> EntryAfter(g, A, L, s, a, k + 1) == Entered(CellOf(row, a)))
    && (forall a :: a in row ==> row[a].Cell?)
  }

  lemma {:induction false} ErrorPersists(g: Cfg, A: Lr0, L: Lookaheads, s: nat, a: Symbol, k: nat, n: nat)
    requires s < |A.states| && k <= n <= |A.states[s].items| && ValidItems(g, A.states[s].items)
    requires EntryAfter(g, A, L, s, a, k).LalrError?
    ensures EntryAfter(g, A, L, s, a, n).LalrError?
    decreases n
  {
    if k < n {
      ErrorPersists(g, A, L, s, a, k, n - 1);
    }
  }

  /** The loop over the lookaheads of a finished item. */
  method AddReductions(g: Cfg, A: Lr0, L: Lookaheads, s: nat, k: nat, row0: map<Symbol, Cell>)
    returns (ok: bool, row: map<Symbol, Cell>)
    requires s < |A.states| && k < |A.states[s].items| && ValidItems(g, A.states[s].items)
    requires var it := A.states[s].items[k]; Complete(g, it) && it.prod > 0 && L.Known(g, s, it.prod)
    requires RowAfter(g, A, L, s, row0, k)
    ensures ok ==> RowAfter(g, A, L, s, row, k + 1)
    ensures !ok ==> SomeError(g, A, L, s, k + 1)
  {
    var it := A.states[s].items[k];
    var laheads := L.Of(g, s, it.prod);
    var todo := laheads;
    ok, row := true, row0;
    while todo != {}
      invariant ok && todo <= laheads && RowDuring(g, A, L, s, row, k, laheads - todo)
      decreases todo
    {
      var a :| a in todo;
      assert EntryAfter(g, A, L, s, a, k) == Entered(CellOf(row, a));
      assert Offers(g, A, L, s, it, a, Reduce(it.prod));
      var e := EnterReduce(g, CellOf(row, a), a, it);
      assert e == EntryAfter(g, A, L, s, a, k + 1);
      if e.LalrError? {
        assert ErrorAt(g, A, L, s, a, k + 1);
        return false, row;
      }
      row := row[a := e.cell];
      todo := todo - {a};
    }
    forall a ensures EntryAfter(g, A, L, s, a, k + 1) == Entered(CellOf(row, a)) {
      if a !in laheads {
        assert forall act :: !Offers(g, A, L, s, it, a, act);
      }
    }
  }

  /** One item of the state: accept, reduce or shift. */
  method AddItem(g: Cfg, A: Lr0, L: Lookaheads, s: nat, k: nat, row0: map<Symbol, Cell>)
    returns (ok: bool, row: map<Symbol, Cell>)
    requires IsAutomaton(g, A) && L.Defined(g, A) && s < |A.states| && k < |A.states[s].items|
             && ValidItems(g, A.states[s].items)
    requires RowAfter(g, A, L, s, row0, k)
    ensures ok ==> RowAfter(g, A, L, s, row, k + 1)
    ensures !ok ==> SomeError(g, A, L, s, k + 1)
  {
    var it := A.states[s].items[k];
    assert it in A.states[s].items;
    if it.dot == |g.productions[it.prod].rhs| {
      if it.prod == 0 {
        ok, row := true, row0[EndMarker := Cell(Accept, it)];
        assert Offers(g, A, L, s, it, EndMarker, Accept);
        assert EntryAfter(g, A, L, s, EndMarker, k) == Entered(CellOf(row0, EndMarker));
        OnlyOneChanges(g, A, L, s, k, EndMarker, row0, row);
      } else {
        ok, row := AddReductions(g, A, L, s, k, row0);
      }
    } else {
      ok, row := AddShift(g, A, L, s, k, row0);
    }
  }

  /** Item number k of state s offers something on the symbol a only. */
  lemma OnlyOneChanges(g: Cfg, A: Lr0, L: Lookaheads, s: nat, k: nat, a: Symbol, row0: map<Symbol, Cell>,
          row: map<Symbol, Cell>)
    requires s < |A.states| && k < |A.states[s].items| && ValidItems(g, A.states[s].items)
    requires forall b, act :: b != a ==> !Offers(g, A, L, s, A.states[s].items[k], b, act)
    requires RowAfter(g, A, L, s, row0, k)
    requires row == row0 ||
      (row.Keys == row0.Keys + {a} && row[a].Cell? && forall b :: b in row0 && b != a ==> row[b] == row0[b])
    requires EntryAfter(g, A, L, s, a, k + 1) == Entered(CellOf(row, a))
    ensures RowAfter(g, A, L, s, row, k + 1)
  {
    forall b ensures EntryAfter(g, A, L, s, b, k + 1) == Entered(CellOf(row, b)) {
      assert EntryAfter(g, A, L, s, b, k) == Entered(CellOf(row0, b));
      if b != a {
        assert !Offers(g, A, L, s, A.states[s].items[k], b, Offer(g, A, L, s, A.states[s].items[k], b));
      }
    }
  }

  method AddShift(g: Cfg, A: Lr0, ghost L: Lookaheads, s: nat, k: nat, row0: map<Symbol, Cell>)
    returns (ok: bool, row: map<Symbol, Cell>)
    requires IsAutomaton(g, A) && s < |A.states| && k < |A.states[s].items| && ValidItems(g, A.states[s].items)
    requires A.states[s].items[k].dot < |g.productions[A.states[s].items[k].prod].rhs|
    requires RowAfter(g, A, L, s, row0, k)
    ensures ok ==> RowAfter(g, A, L, s, row, k + 1)
    ensures !ok ==> SomeError(g, A, L, s, k + 1)
  {
    var it := A.states[s].items[k];
    var a := g.productions[it.prod].rhs[it.dot];
    ok, row := true, row0;
    assert EntryAfter(g, A, L, s, a, k) == Entered(CellOf(row, a));
    if a.Terminal? {
      var j := GotoState(g, A, s, a);
      if j >= 0 {
        assert Offers(g, A, L, s, it, a, Shift(j));
        var e := EnterShift(g, CellOf(row, a), a, it, j);
        assert e == EntryAfter(g, A, L, s, a, k + 1);
        if e.LalrError? {
          assert ErrorAt(g, A, L, s, a, k + 1);
          return false, row;
        }
        row := row[a := e.cell];
      }
    }
    OnlyOneChanges(g, A, L, s, k, a, row0, row);
  }

  /** The accepting state also offers a reduction on '$end'. */
  ghost predicate AcceptConflict(g: Cfg, A: Lr0, L: Lookaheads, s: nat)
    requires s < |A.states|
  {
    Candidate(g, A, L, s, EndMarker, Accept) && exists p :: Candidate(g, A, L, s, EndMarker, Reduce(p))
  }

  lemma AllOffers(g: Cfg, A: Lr0, L: Lookaheads, s: nat, a: Symbol, act: Action)
    requires s < |A.states|
    ensures act in Seen(OffersOn(g, A, L, s, a), |A.states[s].items|) <==> Candidate(g, A, L, s, a, act)
  {
    var items, offers := A.states[s].items, OffersOn(g, A, L, s, a);
    SeenHas(offers, |items|, act);
    if Candidate(g, A, L, s, a, act) {
      var it :| it in items && Offers(g, A, L, s, it, a, act);
      var i :| 0 <= i < |items| && items[i] == it;
      assert offers[i] == act;
    }
    if act in Seen(offers, |items|) {
      var j :| 0 <= j < |items| && offers[j] == act;
      assert Offers(g, A, L, s, items[j], a, act) && items[j] in items;
    }
  }

  /** Of all reductions that the items of state s offer on a, that of item number i is by the rule defined
      first, and among rules on one line it comes first in the state. */
  ghost predicate DefinedFirst(g: Cfg, A: Lr0, L: Lookaheads, s: nat, a: Symbol, i: nat, p: nat)
    requires s < |A.states|
  {
    var items := A.states[s].items;
    && i < |items| && Offers(g, A, L, s, items[i], a, Reduce(p))
    && forall j: nat, q {:trigger Offers(g, A, L, s, items[j], a, Reduce(q))} ::
      j < |items| && Offers(g, A, L, s, items[j], a, Reduce(q)) ==> Sooner(g, p, i, q, j)
  }

  /** Where a reduction is offered on a, nothing accepts, and every shift offered loses to every reduction. */
  ghost predicate ReductionsWin(g: Cfg, A: Lr0, L: Lookaheads, s: nat, a: Symbol)
    requires s < |A.states| && ValidItems(g, A.states[s].items)
  {
    var items := A.states[s].items;
    && (exists p :: Candidate(g, A, L, s, a, Reduce(p)))
    && !Candidate(g, A, L, s, a, Accept)
    && (a.Terminal? ==> forall f, j, p {:trigger Loses(g, a, items, f, j), Offers(g, A, L, s, items[j], a, Reduce(p))} ::
      0 <= f < |items| && 0 <= j < |items| && DotBefore(g, items[f], a) && Offers(g, A, L, s, items[j], a, Reduce(p)) ==> Loses(g, a, items, f, j))
  }

  /** There the table reduces by the rule that was defined first. */
  ghost predicate FirstRuleWins(g: Cfg, A: Lr0, L: Lookaheads, s: nat, row: ActionRow, a: Symbol)
    requires s < |A.states| && ValidItems(g, A.states[s].items)
  {
    ReductionsWin(g, A, L, s, a) ==>
      a in row && row[a].Reduce? && exists i :: DefinedFirst(g, A, L, s, a, i, row[a].prod)
  }

  /** And whatever competes: a reduction in the table is by the first defined of the rules offered since
      some item, before which a shift was offered unless it is the first. */
  ghost predicate SurvivorExplained(g: Cfg, A: Lr0, L: Lookaheads, s: nat, row: ActionRow, a: Symbol)
    requires s < |A.states|
  {
    a in row && row[a].Reduce? ==> exists m, i :: Survives(g, A, L, s, a, row[a].prod, m, i)
  }

  ghost predicate Survives(g: Cfg, A: Lr0, L: Lookaheads, s: nat, a: Symbol, p: nat, m: nat, i: nat)
    requires s < |A.states|
  {
    var items := A.states[s].items;
    && m <= i < |items| && Offers(g, A, L, s, items[i], a, Reduce(p))
    && (forall j: nat, q {:trigger Offers(g, A, L, s, items[j], a, Reduce(q))} ::
      m <= j < |items| && Offers(g, A, L, s, items[j], a, Reduce(q)) ==> Sooner(g, p, i, q, j))
    && (m == 0 || exists f :: 0 <= f < m && DotBefore(g, items[f], a))
  }

  /** Row s is the reference table row: for each symbol, what the items of the state leave. */
  ghost predicate RowExact(g: Cfg, A: Lr0, L: Lookaheads, s: nat, row: ActionRow)
    requires s < |A.states| && ValidItems(g, A.states[s].items)
  {
    forall a :: match EntryAfter(g, A, L, s, a, |A.states[s].items|)
      case LalrError => false
      case Entered(Vacant) => a !in row
      case Entered(Cell(act, _)) => a in row && row[a] == act
  }

  lemma EarliestMeans(g: Cfg, A: Lr0, L: Lookaheads, s: nat, a: Symbol, i: nat, m: nat)
    requires s < |A.states| && Earliest(g, OffersOn(g, A, L, s, a), i, m, |A.states[s].items|)
    ensures var items, p := A.states[s].items, OffersOn(g, A, L, s, a)[i].prod;
            && Offers(g, A, L, s, items[i], a, Reduce(p))
            && forall j: nat, q {:trigger Offers(g, A, L, s, items[j], a, Reduce(q))} ::
              m <= j < |items| && Offers(g, A, L, s, items[j], a, Reduce(q)) ==> Sooner(g, p, i, q, j)
  {
    var items, offers := A.states[s].items, OffersOn(g, A, L, s, a);
    forall j: nat, q | m <= j < |items| && Offers(g, A, L, s, items[j], a, Reduce(q)) ensures Sooner(g, offers[i].prod, i, q, j) {
      assert offers[j] == Reduce(q);
    }
  }

  lemma OfferIsCandidate(g: Cfg, A: Lr0, L: Lookaheads, s: nat, a: Symbol, j: nat, act: Action)
    requires s < |A.states| && j < |A.states[s].items| && act != Forbidden
    ensures OffersOn(g, A, L, s, a)[j] == act ==> Candidate(g, A, L, s, a, act)
  {
    assert A.states[s].items[j] in A.states[s].items;
  }

  lemma LosesInRow(g: Cfg, A: Lr0, L: Lookaheads, s: nat, a: Symbol)
    requires IsAutomaton(g, A) && s < |A.states| && ValidItems(g, A.states[s].items) && ReductionsWin(g, A, L, s, a)
    ensures var items, offers := A.states[s].items, OffersOn(g, A, L, s, a);
            OwnOffers(items, offers) && ShiftsLose(g, a, items, offers) && OneShift(offers, |items|) && SomeReduction(offers, |items|)
  {
    var items, offers := A.states[s].items, OffersOn(g, A, L, s, a);
    OffersFit(g, A, L, s, a);
    forall f, j | 0 <= f < |offers| && 0 <= j < |offers| && offers[f].Shift? && offers[j].Reduce? ensures Loses(g, a, items, f, j) {
      assert DotBefore(g, items[f], a) && Offers(g, A, L, s, items[j], a, Reduce(offers[j].prod));
    }
    forall j | 0 <= j < |offers| ensures offers[j] != Accept {
      OfferIsCandidate(g, A, L, s, a, j, Accept);
    }
    var p :| Candidate(g, A, L, s, a, Reduce(p));
    AllOffers(g, A, L, s, a, Reduce(p));
    SeenHas(offers, |items|, Reduce(p));
  }

  lemma FirstRuleKept(g: Cfg, A: Lr0, L: Lookaheads, s: nat, row: ActionRow, a: Symbol)
    requires IsAutomaton(g, A) && s < |A.states| && ValidItems(g, A.states[s].items) && RowExact(g, A, L, s, row)
    ensures FirstRuleWins(g, A, L, s, row, a)
  {
    var items, offers := A.states[s].items, OffersOn(g, A, L, s, a);
    if ReductionsWin(g, A, L, s, a) {
      LosesInRow(g, A, L, s, a);
      var i := EarliestKept(g, a, items, offers, |items|);
      EntryIsFold(g, A, L, s, a, |items|);
      EarliestMeans(g, A, L, s, a, i, 0);
      assert DefinedFirst(g, A, L, s, a, i, offers[i].prod);
    }
  }

  lemma SurvivorKept(g: Cfg, A: Lr0, L: Lookaheads, s: nat, row: ActionRow, a: Symbol)
    requires IsAutomaton(g, A) && s < |A.states| && ValidItems(g, A.states[s].items) && RowExact(g, A, L, s, row)
    ensures SurvivorExplained(g, A, L, s, row, a)
  {
    var items, offers := A.states[s].items, OffersOn(g, A, L, s, a);
    EntryIsFold(g, A, L, s, a, |items|);
    if a in row && row[a].Reduce? {
      OffersFit(g, A, L, s, a);
      var m, i := Survivor(g, a, items, offers, |items|);
      EarliestMeans(g, A, L, s, a, i, m);
      if m > 0 {
        var f :| 0 <= f < m && offers[f].Shift?;
        assert DotBefore(g, items[f], a);
      }
      assert Survives(g, A, L, s, a, row[a].prod, m, i);
    }
  }

  /** Conflicts between reductions are settled as they should be. */
  ghost predicate ReductionsChosen(g: Cfg, A: Lr0, L: Lookaheads, s: nat, row: ActionRow)
    requires s < |A.states| && ValidItems(g, A.states[s].items)
  {
    forall a {:trigger FirstRuleWins(g, A, L, s, row, a)} {:trigger SurvivorExplained(g, A, L, s, row, a)} ::
      FirstRuleWins(g, A, L, s, row, a) && SurvivorExplained(g, A, L, s, row, a)
  }

  /** In every finished row the first defined of the competing rules is kept. */
  lemma ReductionsAreChosen(g: Cfg, A: Lr0, L: Lookaheads, s: nat, row: ActionRow)
    requires IsAutomaton(g, A) && s < |A.states| && ValidItems(g, A.states[s].items) && RowExact(g, A, L, s, row)
    ensures ReductionsChosen(g, A, L, s, row)
  {
    forall a ensures FirstRuleWins(g, A, L, s, row, a) && SurvivorExplained(g, A, L, s, row, a) {
      FirstRuleKept(g, A, L, s, row, a);
      SurvivorKept(g, A, L, s, row, a);
    }
  }

  lemma ExactRowOk(g: Cfg, A: Lr0, L: Lookaheads, s: nat, row: ActionRow)
    requires IsAutomaton(g, A) && s < |A.states| && ValidItems(g, A.states[s].items) && RowExact(g, A, L, s, row)
    ensures RowOk(g, A, L, s, row) && !AcceptConflict(g, A, L, s)
  {
    forall a, act
      ensures act in Seen(OffersOn(g, A, L, s, a), |A.states[s].items|) <==> Candidate(g, A, L, s, a, act)
    {
      AllOffers(g, A, L, s, a, act);
    }
    forall a
      ensures a in row ==> Candidate(g, A, L, s, a, row[a]) || (row[a] == Forbidden && Conflict(g, A, L, s, a))
      ensures forall act :: Candidate(g, A, L, s, a, act) ==> a in row
    {
      EntryIsMeaningful(g, A, L, s, a, |A.states[s].items|);
    }
    EntryIsMeaningful(g, A, L, s, EndMarker, |A.states[s].items|);
  }

  lemma ErrorIsAcceptConflict(g: Cfg, A: Lr0, L: Lookaheads, s: nat, a: Symbol)
    requires IsAutomaton(g, A) && s < |A.states| && ValidItems(g, A.states[s].items)
    requires EntryAfter(g, A, L, s, a, |A.states[s].items|).LalrError?
    ensures AcceptConflict(g, A, L, s)
  {
    EntryIsMeaningful(g, A, L, s, a, |A.states[s].items|);
    AllOffers(g, A, L, s, a, Accept);
    var p :| Reduce(p) in Seen(OffersOn(g, A, L, s, a), |A.states[s].items|);
    AllOffers(g, A, L, s, a, Reduce(p));
  }

  /** One state's actions. It fails exactly when the accepting state may also reduce on '$end'. */
  method BuildActions(g: Cfg, A: Lr0, L: Lookaheads, s: nat) returns (ok: bool, row: ActionRow)
    requires IsAutomaton(g, A) && L.Defined(g, A) && s < |A.states| && ValidItems(g, A.states[s].items)
    ensures ok ==> RowExact(g, A, L, s, row) && ReductionsChosen(g, A, L, s, row)
    ensures ok <==> !AcceptConflict(g, A, L, s)
  {
    var cells: map<Symbol, Cell> := map[];
    for k := 0 to |A.states[s].items|
      invariant RowAfter(g, A, L, s, cells, k)
    {
      ok, cells := AddItem(g, A, L, s, k, cells);
      if !ok {
        ghost var a :| ErrorAt(g, A, L, s, a, k + 1);
        ErrorPersists(g, A, L, s, a, k + 1, |A.states[s].items|);
        ErrorIsAcceptConflict(g, A, L, s, a);
        row := map[];
        return;
      }
    }
    row := map a | a in cells :: cells[a].action;
    ok := true;
    ExactRowOk(g, A, L, s, row);
    ReductionsAreChosen(g, A, L, s, row);
  }

  /** The goto part of one state: every nonterminal that occurs in its items' rules. */
  method BuildGotos(g: Cfg, A: Lr0, s: nat) returns (row: GotoRow)
    requires IsAutomaton(g, A) && s < |A.states| && ValidItems(g, A.states[s].items)
    ensures GotoRowOk(g, A, s, row)
  {
    var nkeys := SymbolsOf(g, A.states[s].items);
    row := map[];
    for k := 0 to |nkeys|
      invariant forall n :: n in row ==> n.Nonterminal? && row[n] == GotoState(g, A, s, n)
      invariant forall i :: 0 <= i < k && nkeys[i].Nonterminal? && GotoState(g, A, s, nkeys[i]) >= 0 ==> nkeys[i] in row
    {
      if nkeys[k].Nonterminal? {
        var j := GotoState(g, A, s, nkeys[k]);
        if j >= 0 {
          row := row[nkeys[k] := j];
        }
      }
    }
    forall n: Symbol | n.Nonterminal? && GotoState(g, A, s, n) >= 0 ensures n in row {
      var K := GotoKernel(g, A.states[s].items, n);
      NumberedKernelNonempty(g, A, s, n);
      GotoHas(g, A.states[s].items, n, K[0]);
      assert n in nkeys;
    }
  }

  lemma NumberedKernelNonempty(g: Cfg, A: Lr0, s: nat, x: Symbol)
    requires IsAutomaton(g, A) && s < |A.states| && GotoState(g, A, s, x) >= 0
    ensures GotoKernel(g, A.states[s].items, x) != []
  {
    assert StateOk(g, A, GotoState(g, A, s, x));
  }

  /** The row of one state. */
  method BuildRow(g: Cfg, A: Lr0, L: Lookaheads, s: nat) returns (ok: bool, row: map<Symbol, Action>,
          gotos: map<Symbol, nat>)
    requires IsAutomaton(g, A) && L.Defined(g, A) && s < |A.states|
    ensures ok <==> !AcceptConflict(g, A, L, s)
    ensures ok ==> RowMade(g, A, L, s, row, gotos)
  {
    StateItemsValid(g, A, s);
    gotos := map[];
    ok, row := BuildActions(g, A, L, s);
    if ok {
      ExactRowOk(g, A, L, s, row);
      gotos := BuildGotos(g, A, s);
    }
  }

  /** lr_parse_table, steps after the item sets: all rows, or a LALRError. */
  method BuildTables(g: Cfg, A: Lr0, L: Lookaheads) returns (ok: bool, T: Tables)
    requires IsAutomaton(g, A) && L.Defined(g, A)
    ensures ok <==> forall s: nat :: s < |A.states| ==> !AcceptConflict(g, A, L, s)
    ensures ok ==> TablesOk(g, A, L, T)
    ensures ok ==> forall s: nat {:trigger RowDone(g, A, L, T, s)} :: s < |A.states| ==> RowDone(g, A, L, T, s)
  {
    T := Tables([], []);
    for s := 0 to |A.states|
      invariant |T.action| == |T.goto| == s
      invariant forall r: nat {:trigger RowDone(g, A, L, T, r)} :: r < s ==> RowDone(g, A, L, T, r)
    {
      var row, gotos;
      ok, row, gotos := BuildRow(g, A, L, s);
      if !ok {
        return;
      }
      ghost var T0 := T;
      T := Tables(T.action + [row], T.goto + [gotos]);
      RowsStay(g, A, L, T0, T, s);
    }
    ok := true;
    RowsDone(g, A, L, T);
  }

  ghost predicate RowMade(g: Cfg, A: Lr0, L: Lookaheads, s: nat, row: map<Symbol, Action>, gotos: map<Symbol, nat>)
    requires s < |A.states|
  {
    && ValidItems(g, A.states[s].items)
    && RowExact(g, A, L, s, row)
    && RowOk(g, A, L, s, row)
    && ReductionsChosen(g, A, L, s, row)
    && GotoRowOk(g, A, s, gotos)
    && !AcceptConflict(g, A, L, s)
  }

  ghost predicate RowDone(g: Cfg, A: Lr0, L: Lookaheads, T: Tables, s: nat)
    requires s < |A.states| && s < |T.action| && s < |T.goto|
  {
    RowMade(g, A, L, s, T.action[s], T.goto[s])
  }

  lemma RowsStay(g: Cfg, A: Lr0, L: Lookaheads, T0: Tables, T: Tables, s: nat)
    requires |T0.action| == |T0.goto| == s < |A.states| && T0.action <= T.action && T0.goto <= T.goto
    requires forall r: nat :: r < s ==> RowDone(g, A, L, T0, r)
    ensures forall r: nat :: r < s ==> RowDone(g, A, L, T, r)
  {
    forall r: nat | r < s ensures RowDone(g, A, L, T, r) {
      assert RowDone(g, A, L, T0, r);
      assert T.action[r] == T0.action[r] && T.goto[r] == T0.goto[r];
    }
  }

  lemma RowsDone(g: Cfg, A: Lr0, L: Lookaheads, T: Tables)
    requires |T.action| == |T.goto| == |A.states|
    requires forall r: nat :: r < |A.states| ==> RowDone(g, A, L, T, r)
    ensures TablesOk(g, A, L, T)
    ensures forall s: nat :: s < |A.states| ==> !AcceptConflict(g, A, L, s)
  {
    forall s: nat | s < |A.states| ensures RowsOk(g, A, L, T, s) && !AcceptConflict(g, A, L, s) {
      assert RowDone(g, A, L, T, s);
    }
  }

  // ---- What precedence does to one shift/reduce conflict -------------------------------

  /** How many of the items with numbers in [lo, hi) shift on a. */
  ghost function ShiftItems(g: Cfg, A: Lr0, s: nat, a: Symbol, lo: nat, hi: nat): nat
    requires s < |A.states| && lo <= hi <= |A.states[s].items|
    decreases hi
  {
    if lo == hi then 0
    else ShiftItems(g, A, s, a, lo, hi - 1) + if DotBefore(g, A.states[s].items[hi - 1], a) then 1 else 0
  }

  /** Item number i of state s offers to reduce by rule p on a; every other offer is a shift, and
      comes later in the state's list. */
  ghost predicate ReduceFirst(g: Cfg, A: Lr0, L: Lookaheads, s: nat, a: Symbol, i: nat, p: nat)
    requires s < |A.states|
  {
    && a.Terminal?
    && i < |A.states[s].items| && Offers(g, A, L, s, A.states[s].items[i], a, Reduce(p))
    && forall k, act {:trigger Offers(g, A, L, s, A.states[s].items[k], a, act)} ::
      0 <= k < |A.states[s].items| && k != i && Offers(g, A, L, s, A.states[s].items[k], a, act) ==> k > i && act.Shift?
  }

  /** With the reduction first, the outcome is the documented verdict on the reduce rule and the
      token, with one exception: a nonassoc error entry survives only a single shift item. The
      entry is then None, which the next shift item takes for absent and overwrites. */
  lemma {:induction false} ReduceFirstVerdict(g: Cfg, A: Lr0, L: Lookaheads, s: nat, a: Symbol, i: nat, p: nat, k: nat)
    requires IsAutomaton(g, A) && s < |A.states| && ValidItems(g, A.states[s].items)
    requires ReduceFirst(g, A, L, s, a, i, p) && i < k <= |A.states[s].items|
    requires p < |g.productions|
    ensures EntryAfter(g, A, L, s, a, k).Entered?
    ensures VerdictIs(g, A, s, a, p, ShiftItems(g, A, s, a, i + 1, k), EntryAfter(g, A, L, s, a, k).cell)
    decreases k
  {
    var it := A.states[s].items[k - 1];
    if k == i + 1 {
      VacantBefore(g, A, L, s, a, i, p, i);
    } else {
      ReduceFirstVerdict(g, A, L, s, a, i, p, k - 1);
      var n, c := ShiftItems(g, A, s, a, i + 1, k - 1), EntryAfter(g, A, L, s, a, k - 1).cell;
      if DotBefore(g, it, a) {
        assert it in A.states[s].items;
        GotoForward(g, A, s, it, a);
        assert Offers(g, A, L, s, it, a, Shift(GotoState(g, A, s, a)));
        OneMoreShift(g, A, s, a, it, p, n, c);
      } else {
        var o := Offer(g, A, L, s, it, a);
        assert o != Forbidden ==> Offers(g, A, L, s, A.states[s].items[k - 1], a, o) && o.Shift?;
      }
    }
  }

  /** The entry of a after a reduction by p and then n shift items. */
  ghost predicate VerdictIs(g: Cfg, A: Lr0, s: nat, a: Symbol, p: nat, n: nat, c: Cell)
    requires s < |A.states| && p < |g.productions|
  {
    var verdict := Documented(g.productions[p].prec, TokenPrecedence(g, a));
    && c.Cell?
    && (c.action == Reduce(p) ==> c.item.prod == p)
    && if n == 0 || verdict == TakeReduce then c.action == Reduce(p)
       else if verdict == TakeNeither && n == 1 then c.action == Forbidden
       else c.action.Shift? && c.action.state == GotoState(g, A, s, a)
  }

  lemma OneMoreShift(g: Cfg, A: Lr0, s: nat, a: Symbol, it: Item, p: nat, n: nat, c: Cell)
    requires s < |A.states| && p < |g.productions| && VerdictIs(g, A, s, a, p, n, c)
    requires ValidItem(g, it) && ValidItem(g, c.item) && GotoState(g, A, s, a) >= 0
    ensures EnterShift(g, c, a, it, GotoState(g, A, s, a)).Entered?
    ensures VerdictIs(g, A, s, a, p, n + 1, EnterShift(g, c, a, it, GotoState(g, A, s, a)).cell)
  {
  }

  lemma {:induction false} VacantBefore(g: Cfg, A: Lr0, L: Lookaheads, s: nat, a: Symbol, i: nat, p: nat, k: nat)
    requires s < |A.states| && ValidItems(g, A.states[s].items)
    requires ReduceFirst(g, A, L, s, a, i, p) && k <= i
    ensures EntryAfter(g, A, L, s, a, k) == Entered(Vacant)
  {
    if k > 0 {
      VacantBefore(g, A, L, s, a, i, p, k - 1);
      OfferIsOffered(g, A, L, s, a, k - 1);
    }
  }

  lemma OfferIsOffered(g: Cfg, A: Lr0, L: Lookaheads, s: nat, a: Symbol, k: nat)
    requires s < |A.states| && ValidItems(g, A.states[s].items) && k < |A.states[s].items|
    ensures ValidItem(g, A.states[s].items[k])
    ensures var o := Offer(g, A, L, s, A.states[s].items[k], a);
            o != Forbidden && a.Terminal? ==> Offers(g, A, L, s, A.states[s].items[k], a, o)
  {
  }

  // ---- The same with the shift first ---------------------------------------------------

  /** Item number f of state s shifts on a, and item number i, later in the list, offers to reduce by p;
      every other offer is a shift that comes later than f. */
  ghost predicate ShiftFirst(g: Cfg, A: Lr0, L: Lookaheads, s: nat, a: Symbol, f: nat, i: nat, p: nat)
    requires s < |A.states|
  {
    && a.Terminal? && f < i < |A.states[s].items|
    && DotBefore(g, A.states[s].items[f], a) && Offers(g, A, L, s, A.states[s].items[i], a, Reduce(p))
    && forall k, act {:trigger Offers(g, A, L, s, A.states[s].items[k], a, act)} ::
      0 <= k < |A.states[s].items| && k != i && Offers(g, A, L, s, A.states[s].items[k], a, act) ==> k >= f && act.Shift?
  }

  /** The entry of a, whose shift goes to state j, after a shift by a rule with the precedence `first`, a
      reduction by p, and then n shift items: the first two meet by the precedence of the shift's rule,
      and what is left of the reduction meets the rest by its own. */
  ghost predicate LateVerdictIs(g: Cfg, a: Symbol, j: nat, first: Precedence, p: nat, n: nat, c: Cell)
    requires p < |g.productions|
  {
    && c.Cell?
    && match ReduceAfterShift(first, TokenPrecedence(g, a))
       case TakeReduce =>
         (c.action == Reduce(p) ==> c.item.prod == p)
         && (match Documented(g.productions[p].prec, TokenPrecedence(g, a))
             case TakeReduce => c.action == Reduce(p)
             case TakeNeither => c.action == if n == 0 then Reduce(p) else if n == 1 then Forbidden else Shift(j)
             case TakeShift => c.action == if n == 0 then Reduce(p) else Shift(j))
       case TakeNeither => c.action == if n == 0 then Forbidden else Shift(j)
       case TakeShift => c.action == Shift(j)
  }

  lemma LateShift(g: Cfg, a: Symbol, j: nat, it: Item, first: Precedence, p: nat, n: nat, c: Cell)
    requires p < |g.productions| && LateVerdictIs(g, a, j, first, p, n, c) && ValidItem(g, it) && ValidItem(g, c.item)
    ensures EnterShift(g, c, a, it, j).Entered? &&
      LateVerdictIs(g, a, j, first, p, n + 1, EnterShift(g, c, a, it, j).cell)
  {
  }

  ghost function Shifts(offers: seq<Action>, lo: nat, hi: nat): nat
    requires lo <= hi <= |offers|
    decreases hi
  {
    if lo == hi then 0 else Shifts(offers, lo, hi - 1) + if offers[hi - 1].Shift? then 1 else 0
  }

  ghost predicate ShiftThenReduce(items: seq<Item>, offers: seq<Action>, f: nat, i: nat, j: nat, p: nat) {
    && f < i < |offers| == |items| && offers[f] == Shift(j) && offers[i] == Reduce(p) && items[i].prod == p
    && forall k {:trigger offers[k]} :: 0 <= k < |offers| && k != i ==>
      offers[k] == Forbidden || (k >= f && offers[k] == Shift(j))
  }

  lemma {:induction false} ShiftStays(g: Cfg, a: Symbol, items: seq<Item>, offers: seq<Action>, f: nat, i: nat, j: nat,
          p: nat, k: nat)
    requires ValidItems(g, items) && ShiftThenReduce(items, offers, f, i, j, p) && k <= i
    ensures Fold(g, a, items, offers, k) == Entered(if k <= f then Vacant else Cell(Shift(j), items[f]))
  {
    if k > 0 {
      ShiftStays(g, a, items, offers, f, i, j, p, k - 1);
    }
  }

  lemma {:induction false} LateVerdict(g: Cfg, a: Symbol, items: seq<Item>, offers: seq<Action>, f: nat, i: nat,
          j: nat, p: nat, k: nat)
    requires ValidItems(g, items) && ShiftThenReduce(items, offers, f, i, j, p) && i < k <= |items| && p < |g.productions|
    ensures ValidItem(g, items[f]) && Fold(g, a, items, offers, k).Entered?
    ensures LateVerdictIs(g, a, j, g.productions[items[f].prod].prec, p, Shifts(offers, i + 1, k),
      Fold(g, a, items, offers, k).cell)
    decreases k
  {
    assert ValidItem(g, items[f]) && ValidItem(g, items[k - 1]);
    if k == i + 1 {
      ShiftStays(g, a, items, offers, f, i, j, p, i);
    } else {
      LateVerdict(g, a, items, offers, f, i, j, p, k - 1);
      if offers[k - 1].Shift? {
        LateShift(g, a, j, items[k - 1], g.productions[items[f].prod].prec, p, Shifts(offers, i + 1, k - 1),
                  Fold(g, a, items, offers, k - 1).cell);
      }
    }
  }

  lemma {:induction false} ShiftsAre(g: Cfg, A: Lr0, L: Lookaheads, s: nat, a: Symbol, lo: nat, hi: nat)
    requires s < |A.states| && lo <= hi <= |A.states[s].items| && a.Terminal? && GotoState(g, A, s, a) >= 0
    ensures Shifts(OffersOn(g, A, L, s, a), lo, hi) == ShiftItems(g, A, s, a, lo, hi)
    decreases hi
  {
    if lo < hi {
      ShiftsAre(g, A, L, s, a, lo, hi - 1);
    }
  }

  /** What the items offer when a shift comes first. */
  lemma OffersInOrder(g: Cfg, A: Lr0, L: Lookaheads, s: nat, a: Symbol, f: nat, i: nat, p: nat)
    requires s < |A.states| && ValidItems(g, A.states[s].items) && GotoState(g, A, s, a) >= 0
    requires ShiftFirst(g, A, L, s, a, f, i, p)
    ensures ShiftThenReduce(A.states[s].items, OffersOn(g, A, L, s, a), f, i, GotoState(g, A, s, a), p)
  {
    var offers, j := OffersOn(g, A, L, s, a), GotoState(g, A, s, a);
    forall k | 0 <= k < |offers| && k != i ensures offers[k] == Forbidden || (k >= f && offers[k] == Shift(j)) {
      OfferIsOffered(g, A, L, s, a, k);
    }
    assert Offers(g, A, L, s, A.states[s].items[i], a, offers[i]);
  }

  /** With the shift first, the reduction meets the precedence of the rule that the shift came from. */
  lemma ShiftFirstVerdict(g: Cfg, A: Lr0, L: Lookaheads, s: nat, a: Symbol, f: nat, i: nat, p: nat, k: nat)
    requires IsAutomaton(g, A) && s < |A.states| && ValidItems(g, A.states[s].items)
    requires ShiftFirst(g, A, L, s, a, f, i, p) && i < k <= |A.states[s].items| && p < |g.productions|
    ensures EntryAfter(g, A, L, s, a, k).Entered? && GotoState(g, A, s, a) >= 0
    ensures LateVerdictIs(g, a, GotoState(g, A, s, a), g.productions[A.states[s].items[f].prod].prec, p,
                          ShiftItems(g, A, s, a, i + 1, k), EntryAfter(g, A, L, s, a, k).cell)
  {
    assert A.states[s].items[f] in A.states[s].items;
    GotoForward(g, A, s, A.states[s].items[f], a);
    OffersInOrder(g, A, L, s, a, f, i, p);
    LateEntry(g, A, L, s, a, f, i, p, k);
  }

  lemma LateEntry(g: Cfg, A: Lr0, L: Lookaheads, s: nat, a: Symbol, f: nat, i: nat, p: nat, k: nat)
    requires s < |A.states| && ValidItems(g, A.states[s].items) && GotoState(g, A, s, a) >= 0 && a.Terminal?
    requires ShiftThenReduce(A.states[s].items, OffersOn(g, A, L, s, a), f, i, GotoState(g, A, s, a), p)
    requires i < k <= |A.states[s].items| && p < |g.productions|
    ensures ValidItem(g, A.states[s].items[f]) && EntryAfter(g, A, L, s, a, k).Entered?
    ensures LateVerdictIs(g, a, GotoState(g, A, s, a), g.productions[A.states[s].items[f].prod].prec, p,
                          ShiftItems(g, A, s, a, i + 1, k), EntryAfter(g, A, L, s, a, k).cell)
  {
    LateVerdict(g, a, A.states[s].items, OffersOn(g, A, L, s, a), f, i, GotoState(g, A, s, a), p, k);
    EntryIsFold(g, A, L, s, a, k);
    ShiftsAre(g, A, L, s, a, i + 1, k);
  }

  // ---- When the table holds what is documented -----------------------------------------

  /** The documented entry for a reduction by p against the shift of a. */
  ghost predicate AsDocumented(g: Cfg, A: Lr0, s: nat, a: Symbol, p: nat, act: Action)
    requires s < |A.states| && p < |g.productions|
  {
    match Documented(g.productions[p].prec, TokenPrecedence(g, a))
    case TakeReduce => act == Reduce(p)
    case TakeNeither => act == Forbidden
    case TakeShift => act.Shift? && act.state == GotoState(g, A, s, a)
  }

  predicate LevelNonAssoc(rule: Precedence, token: Precedence) {
    rule.level == token.level && rule.assoc == NonAssoc
  }

  /** With the reduction first, the finished entry is the documented one unless two or more shift items
      meet a nonassoc rule on the token's level. */
  lemma ReduceFirstExactly(g: Cfg, A: Lr0, L: Lookaheads, s: nat, a: Symbol, i: nat, p: nat)
    requires IsAutomaton(g, A) && s < |A.states| && ValidItems(g, A.states[s].items)
    requires ReduceFirst(g, A, L, s, a, i, p) && p < |g.productions|
    ensures var k := |A.states[s].items|;
            var n := ShiftItems(g, A, s, a, i + 1, k);
            EntryAfter(g, A, L, s, a, k).Entered? && EntryAfter(g, A, L, s, a, k).cell.Cell?
            && (n > 0 ==> (AsDocumented(g, A, s, a, p, EntryAfter(g, A, L, s, a, k).cell.action)
                           <==> !(n >= 2 && LevelNonAssoc(g.productions[p].prec, TokenPrecedence(g, a)))))
  {
    ReduceFirstVerdict(g, A, L, s, a, i, p, |A.states[s].items|);
  }

  /** With the shift first, the finished entry is the documented one exactly in these cases; n counts the
      shift items behind the reduction. */
  predicate LateAgrees(shiftRule: Precedence, reduceRule: Precedence, token: Precedence, n: nat) {
    if n == 0 then OrderAgrees(shiftRule, reduceRule, token)
    else if shiftRule.level < token.level || (shiftRule.level == token.level && token.assoc == LeftAssoc)
    then !(n >= 2 && LevelNonAssoc(reduceRule, token))
    else ShiftSide(reduceRule, token, reduceRule.assoc)
  }

  lemma ShiftFirstExactly(g: Cfg, A: Lr0, L: Lookaheads, s: nat, a: Symbol, f: nat, i: nat, p: nat)
    requires IsAutomaton(g, A) && s < |A.states| && ValidItems(g, A.states[s].items)
    requires ShiftFirst(g, A, L, s, a, f, i, p) && p < |g.productions|
    ensures var k := |A.states[s].items|;
            EntryAfter(g, A, L, s, a, k).Entered? && EntryAfter(g, A, L, s, a, k).cell.Cell?
            && (AsDocumented(g, A, s, a, p, EntryAfter(g, A, L, s, a, k).cell.action)
                <==> LateAgrees(g.productions[A.states[s].items[f].prod].prec, g.productions[p].prec,
                  TokenPrecedence(g, a),
                                ShiftItems(g, A, s, a, i + 1, k)))
  {
    ShiftFirstVerdict(g, A, L, s, a, f, i, p, |A.states[s].items|);
    ResolutionDependsOnOrder(g.productions[A.states[s].items[f].prod].prec, g.productions[p].prec, TokenPrecedence(g, a));
  }
}
