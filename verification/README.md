# Verified models of the system's core algorithms

This project models the parts of the repository whose correctness is hardest to see by reading, in
Dafny 4.11, and proves what they are for.

- **The parser generator and its engine** (`Cfg`, `GrammarSets`, `GrammarTables`, `Digraph`,
  `LrAutomaton`, `LrOrder`, `ParseTable`, `ParseTrees`, `LrEngine`, `LrComplete`, `LrHalting`,
  `Lookahead`, `LalrTables`, `LalrMeaning`, `LalrContexts`, `SlrTables`, `Generator`). FIRST, FOLLOW and
  the nullable symbols are exact; the digraph traversal computes the least solution over any relation,
  cycles included; competing reductions are settled for the rule defined first; the engine accepts only
  sentences whatever precedence decides, and accepts exactly the language when the table has no
  conflicts; the LALR lookaheads are what can come next in the contexts that lead to a state, proved
  without the relations they are computed from, and lie within FOLLOW exactly when the start symbol can
  end what the head of the first rule derives. `PrecedenceExample`, `StrayExample` and `StartExample`
  are grammars on which the code misses what is promised (`GotoLists` computes their gotos).
- **The dynamic linker** (`LinkerState`, `LinkerLife`, `LinkerCalls`, `LinkerPlans`, `Linker`,
  `LinkerTheorems`, `PhdrLoader`). Over every run of program start, `dlopen` and `dlclose`: what can be
  loaded, said of the list and the files before the call, is loaded; reference counts are what
  they should be, the dependency graph is acyclic, nothing is unloaded too early or left behind,
  constructors and destructors run once and in dependency order, and closing undoes opening. Loading
  the segments of a well-formed program header table puts every byte where the file says.
- **The bitfield compiler** (`Bitfield`, `TaggedUnion`). For every layout the compiler accepts, the
  generated accessors obey the laws of a record; for every accepted union the generated decoder
  returns exactly the tag a word was built with.
- **The hash map** (`HashMap`). A bounded-probing table with doubling that stands for a plain map, and
  when exactly it needs memory.
- **The callback event queue** (`EventRing`, `CallbackQueue`). A circular doubly linked list used as
  a stable priority queue, with cancellation, the coalescing of duplicates, and senders that wait for
  their calls or give up.
- **Interface flattening** (`InterfaceList`). The inheritance chains of a class become one table
  without duplicates, parents first, with method numbers, exact counts and distinct callback events.
- **The debugger stub** (`Breakpoints`, `GdbPacket`). Program memory is always the original overlaid
  with traps at exactly the active breakpoints, and is restored exactly when the writes do not fault;
  the in-place decoder inverts the encoder; every framed payload gets through, also when frames are
  damaged on the way.
- **The linker's formatter** (`Formatter`, `FormatterMeaning`). Canonical numerals by reversal in place,
  a parser that reads them back, a bounded buffer that holds as much of the whole output as fits, and
  what a format prints, piece by piece.

How the models are built: objects that the source changes in place are classes whose methods carry
the same loops and branches, and whose contracts tie the new state to a function or an invariant; what
these mean is proved in lemmas beside them. Invariants of the linker are stated over an immutable
`World` value that each method keeps in a ghost field. Predicates over rings and sorted queues are
defined by recursion so that they stay folded where only the list as a whole matters.

Where the code and its documentation disagree, the model follows the code:

- `yacc.py` documents conflict resolution by the precedence of the reduce rule. When the shift was
  entered first, the code compares the precedence of the rule the shift came from instead, and an entry
  that precedence turned into an error is filled again by a later shift item. When a table entry is
  the documented one all the same is stated exactly (`ParseTable.ShiftFirstExactly`,
  `ParseTable.ReduceFirstExactly`), and `PrecedenceExample.DocumentedVerdictMissed` is a case where it
  is not.
- The includes and lookback relations of `yacc.py` follow every item of the transition's nonterminal in
  its state, with the dot anywhere, from that dot on; those of DeRemer and Pennello follow rules only
  from where they begin. The Follow sets agree exactly when no edge of a moved item adds anything
  (`LalrMeaning.FollowSetsProperExactly`). `StrayExample` is an LALR(1) grammar for which one does, so
  that a conflict is reported that is none. The lookaheads are always complete.
- `compute_follow` puts the end marker after the head of the first rule, also when `set_start` chose
  another start symbol. Unless the start symbol can end what that head derives, an SLR table accepts
  nothing (`SlrTables.SlrAcceptsNothing`, `StartExample.SentenceRejected`).
- `linker_phdr.c` promises that the bytes between `p_filesz` and `p_memsz` are zero for every segment;
  the code sees to it for writable segments only (`PhdrLoader.ZeroFilledExactly`).
- The assertion in a generated field write lets values through that the field cannot hold unless the
  mask constant is not shifted left and is signed or, after its shift, as wide as the word
  (`Bitfield.WriteAssertionSound`); in 64-bit blocks a 32-bit constant leaves the upper half unchecked
  (`Bitfield.UpperHalfUnchecked`).
- The generated comparison of a word with a tag agrees with reading the tag exactly when there is one
  tag width or the tags are at bit 0 (`TaggedUnion.EqualsAgreesExactly`, `TaggedUnion.EqualsMisses`).
- After removals the hash map can hold two copies of one key (`HashMap.PutDuplicatesExactly`), and a
  rehash can then bring an old value back (`HashMap.RehashKeepsExactly`, `HashMap.StaleAfterRehash`).
- Breakpoints that overlap are taken off in the order they were written, which can leave a trap's bytes
  behind (`Breakpoints.RestoredExactly`).
- `linker_format.c` knows no `%u` and no `%%`: both take an argument and print nothing
  (`Formatter.NothingPrinted`). `%o` prints a signed value (`Formatter.OctalIsSigned`). Zero padding
  goes before a minus sign and, with `-`, behind the text (`Formatter.PaddingStandardExactly`).
- `get_packet` also returns when its buffer has filled up without a `#` and the bytes happen to add up
  to 255; nothing is acknowledged then (`GdbPacket.ReceivedIsFramed`).

## Model

| member | source | states |
|---|---|---|
| GrammarSets.FirstExact | zener/kernel/tools/yacc.py:1684-1712 | any table that the rules have closed and that holds nothing unfounded says, for every symbol, exactly which terminals can begin a form derived from it, and holds the empty word exactly when the symbol derives it |
| GrammarSets.FollowExact | zener/kernel/tools/yacc.py:1721-1762 | any closed and founded FOLLOW table holds exactly the terminals that can stand next to a nonterminal in a form derived from any nonterminal, as the loop over all rules collects them, and the end marker exactly when the nonterminal can end a form derived from the head of the first rule |
| GrammarSets.FirstSeqSound | zener/kernel/tools/yacc.py:1650-1677 | what _first collects for a string of symbols really begins, or really vanishes in, a form derived from it |
| GrammarSets.DerivesShrinksFirst | zener/kernel/tools/yacc.py:1650-1712 | under a closed table no derivation can begin with, or vanish into, something the table does not hold |
| GrammarSets.FirstAfterIsFollow | zener/kernel/tools/yacc.py:1739-1753 | whatever begins the rest of a rule after B can follow B |
| GrammarSets.FollowOfHeadPasses | zener/kernel/tools/yacc.py:1753-1758 | when the rest of the rule can vanish, whatever follows the head can follow B |
| GrammarTables.Grammar.FirstOf | zener/kernel/tools/yacc.py:1650-1677 | computes exactly the FIRST set of a string from the table as it stands, the empty word included, whatever the table |
| GrammarTables.Grammar.ComputeFirst | zener/kernel/tools/yacc.py:1684-1712 | terminates on every grammar with a table that is a FIRST table, hence, by FirstExact, exact |
| GrammarTables.Grammar.PropagateFirst | zener/kernel/tools/yacc.py:1697-1709 | one pass changes the table only by founded additions, says truthfully whether it changed it, and shrinks what is missing |
| GrammarTables.Grammar.ComputeFollow | zener/kernel/tools/yacc.py:1721-1762 | terminates on every grammar and start symbol with an exact FOLLOW table |
| GrammarTables.Grammar.PropagatePlace | zener/kernel/tools/yacc.py:1741-1758 | treats one occurrence of a nonterminal: everything it adds can follow that nonterminal, and afterwards the place is closed unless more was added |
| GrammarTables.ComputeNullable | zener/kernel/tools/yacc.py:2096-2110 | marks exactly the nonterminals that derive the empty string |
| GrammarTables.VanishingIsNullable | zener/kernel/tools/yacc.py:2096-2110 | every string that derives the empty string is made of marked nonterminals, whenever the marking is closed under the rules |
| GrammarTables.NullableAgreesWithFirst | zener/kernel/tools/yacc.py:1684-1712 | the independently coded nullable loop marks A exactly when FIRST(A) holds the empty word |
| Digraph.Traversal.Solve | zener/kernel/tools/yacc.py:1901-1909 | digraph returns, for every finite relation, the solution: the union of the initial sets of everything reachable |
| Digraph.Traversal.Traverse | zener/kernel/tools/yacc.py:1911-1931 | one call of traverse keeps the invariant of the numbers, the stack and the sets, finishes exactly what is reachable by unvisited nodes, and leaves x on the stack or a whole component popped |
| Digraph.Traversal.PopComponent | zener/kernel/tools/yacc.py:1924-1930 | the popping loop gives every member of the component at the top of the stack the set of its root and the number of a finished node |
| Digraph.SolutionSatisfies | zener/kernel/tools/yacc.py:1901-1931 | that solution satisfies F(x) = F'(x) joined with F(y) for all x R y |
| Digraph.SolutionIsLeast | zener/kernel/tools/yacc.py:1901-1931 | it is contained in every other solution of these equations |
| Digraph.SolutionIsJustified | zener/kernel/tools/yacc.py:1901-1931 | whatever it holds at x was initially at x or is held at a successor |
| Digraph.ComponentsShare | zener/kernel/tools/yacc.py:1924-1930 | nodes that reach each other get the same set |
| LrAutomaton.Closure | zener/kernel/tools/yacc.py:1980-2000 | terminates with the least closed item list: the kernel, and every item it calls for, once, each justified; the order of the list is a function of the kernel |
| LrAutomaton.Builder.Goto | zener/kernel/tools/yacc.py:2005-2036 | the moved items of a state are exactly those with the dot before x, in order, and the list returned is the closure of them, the same for the same kernel whether it was in the cache or not, and none when nothing can advance |
| LrAutomaton.Builder.Items | zener/kernel/tools/yacc.py:2039-2066 | terminates with the LR(0) automaton: state 0 is the closure of the start item, every nonempty goto of a state is a state, states are distinct and reached |
| LrAutomaton.GotoForward | zener/kernel/tools/yacc.py:2005-2036 | advancing an item of a state leads to an item of the goto state |
| LrAutomaton.GotoBack | zener/kernel/tools/yacc.py:2005-2036 | a kernel item of a goto state comes from an item of the state before |
| LrAutomaton.StartItemOnlyAtStart | zener/kernel/tools/yacc.py:2039-2066 | the item before the whole input stands in state 0 only, which no goto re-enters |
| LrOrder.ClosureInOrder | zener/kernel/tools/yacc.py:1980-2000 | the list of a closure is in the order in which rules are first called for, those of one nonterminal as they were defined: conflict resolution goes by this order |
| LrOrder.GotoInOrder | zener/kernel/tools/yacc.py:2005-2036 | the moved items are exactly those with the dot before x, once each and in the order of the list |
| ParseTable.BuildTables | zener/kernel/tools/yacc.py:2365-2539 | for every automaton and lookahead choice: fails exactly when an acceptance conflicts with another action; otherwise every action is one some item offers, gotos are those of the automaton, an uncontested symbol gets its only candidate, and of several reductions the one by the rule defined first is kept |
| ParseTable.BuildActions | zener/kernel/tools/yacc.py:2387-2523 | the row of one state is, symbol by symbol, what entering its candidates in order gives, keeps the rule defined first wherever reductions compete, and fails exactly on an acceptance conflict |
| ParseTable.AddReductions | zener/kernel/tools/yacc.py:2405-2457 | enters one rule under all its lookaheads: each entry becomes the outcome of its own conflict, which of two reductions keeps the one defined first (FirstRuleKept), whatever order the set is walked in |
| ParseTable.AddShift | zener/kernel/tools/yacc.py:2458-2507 | enters one shift: only the entry of its symbol changes, to the outcome of its conflict |
| ParseTable.FirstRuleKept | zener/kernel/tools/yacc.py:2437-2452 | where only reductions are offered on a symbol, or every shift offered loses to every reduction, the finished entry reduces by the offered rule with the lowest line, on equal lines by the one whose item comes first in the state |
| ParseTable.SurvivorKept | zener/kernel/tools/yacc.py:2405-2507 | and in every finished row, whatever shifts compete: a reduction in the table is by the rule with the lowest line of all those offered since some item, which is the first of the state or one behind an item that offers a shift |
| ParseTable.ReductionsAreChosen | zener/kernel/tools/yacc.py:2405-2507 | both, for every symbol of every state |
| ParseTable.EntryIsMeaningful | zener/kernel/tools/yacc.py:2410-2507 | whatever precedence decides on the way, an entry is absent, forbidden, or an action that an item of the state offers |
| ParseTable.ResolutionDependsOnOrder | zener/kernel/tools/yacc.py:2417-2436 | which of the two rules' precedences the code compares, for all precedences: entering the reduction first gives the documented verdict, entering the shift first exactly when the three precedences agree in the way stated |
| ParseTable.ReduceFirstExactly | zener/kernel/tools/yacc.py:2473-2503 | with the reduction entered first and some shift after it, the finished entry is the documented one if and only if there is only one shift item, or the rule is not a nonassociative one on the token's level: a second shift item fills an entry that precedence made an error |
| ParseTable.ShiftFirstExactly | zener/kernel/tools/yacc.py:2417-2507 | with a shift entered first, the finished entry of the table is the documented one if and only if the precedences of the shift's rule, the reduce rule and the token, and the number of later shift items, are as LateAgrees says |
| ParseTable.ShiftFirstVerdict | zener/kernel/tools/yacc.py:2417-2507 | and what the entry is in every case: the reduction meets the precedence of the rule that the shift came from, and what is left of it meets the later shift items by its own |
| PrecedenceExample.AssociativityDecides | zener/kernel/tools/yacc.py:2417-2436 | a grammar and a state of its automaton in which the associativity of the token alone decides, whatever precedence the reduce rule has |
| PrecedenceExample.DocumentedVerdictMissed | zener/kernel/tools/yacc.py:2417-2436 | there the table shifts although the reduce rule has the higher precedence |
| ParseTrees.TreeDerives | zener/kernel/tools/yacc.py:950-1005 | a valid parse tree's root derives its yield |
| ParseTrees.SentencesHaveTrees | zener/kernel/tools/yacc.py:950-1005 | every sentence of the grammar is the yield of a parse tree of the start symbol |
| LrEngine.StepSafe | zener/kernel/tools/yacc.py:900-1023 | one step of the engine on any table that BuildTables can return: a reduce finds exactly its right-hand side on the stack, the goto that follows is defined, and the stack still spells a path from state 0, which stands at the bottom only |
| LrEngine.RunSafe | zener/kernel/tools/yacc.py:872-1023 | over any number of steps: the stack and the rest of the input rightmost-derive the whole input |
| LrEngine.AcceptsOnlySentences | zener/kernel/tools/yacc.py:872-1023 | an accepted input has a rightmost derivation from the start symbol, whatever the conflict resolution chose, and the tree returned is a parse tree of it |
| LrEngine.LRParser.Parse | zener/kernel/tools/yacc.py:872-1023 | the loop over the two stacks does exactly the steps of the machine; with tables of the generator no lookup fails, whatever the conflict resolution chose, and what it returns is a parse tree of the input |
| LrEngine.HandleOnStack | zener/kernel/tools/yacc.py:947-960 | below a completed item the symbols of its rule lie on the stack and state of the item's start is below them |
| LrComplete.AcceptsEverySentence | zener/kernel/tools/yacc.py:872-1023 | without conflicts, and with lookaheads that cover what can follow, the engine accepts every sentence |
| LrComplete.AcceptsExactlyTheLanguage | zener/kernel/tools/yacc.py:872-1023 | then it accepts exactly the sentences of the grammar |
| LrComplete.ConflictFreeIsUnambiguous | zener/kernel/tools/yacc.py:2365-2539 | a grammar whose table has no conflicts has one parse tree for each sentence |
| LrComplete.DriveTree | zener/kernel/tools/yacc.py:900-1023 | the engine reads the yield of any parse tree whose root a state expects, and ends in the goto of that root |
| LrHalting.Halts | zener/kernel/tools/yacc.py:872-1023 | for a grammar without empty rules whose one-symbol rules do not lead in a circle, every run on every input, whatever the conflict resolution chose, ends within a number of turns linear in the input |
| LrHalting.Decides | zener/kernel/tools/yacc.py:872-1023 | without conflicts it then ends with a tree for every sentence and with a syntax error for every other input |
| Lookahead.FindTransitions | zener/kernel/tools/yacc.py:2123-2134 | lists exactly the nonterminal transitions of the automaton, once each |
| Lookahead.DrRelation | zener/kernel/tools/yacc.py:2143-2162 | the terminals directly readable after a transition, the end marker after the start symbol in state 0 |
| LalrContexts.EndReadAtStart | zener/kernel/tools/yacc.py:2155-2157 | the end marker can be read, directly or over nullable transitions, after the start symbol in state 0 and after no other transition |
| Lookahead.ReadsRelation | zener/kernel/tools/yacc.py:2167-2180 | exactly the nullable transitions out of the state reached |
| Lookahead.RestIsNullable | zener/kernel/tools/yacc.py:2242-2247 | true exactly when the rest of the rule after the dot derives the empty string |
| Lookahead.SamePrefix | zener/kernel/tools/yacc.py:2261-2267 | the comparison of the two item prefixes with the dot written into the text |
| Lookahead.LookbackIncludes | zener/kernel/tools/yacc.py:2222-2269 | finds, for one transition, exactly the includes and lookback edges that following the items of its nonterminal from its state gives, each from where the item's dot stands in that state |
| LalrTables.ComputeReadSets | zener/kernel/tools/yacc.py:2284-2290 | the least read sets over the reads relation |
| LalrTables.ComputeLookbackIncludes | zener/kernel/tools/yacc.py:2210-2274 | the two dictionaries hold exactly these edges for every transition: no other state or symbol |
| LalrTables.ComputeFollowSets | zener/kernel/tools/yacc.py:2306-2310 | the least follow sets over the includes relation |
| LalrTables.AddLookaheads | zener/kernel/tools/yacc.py:2324-2333 | an item's lookaheads are exactly the union of the follow sets it looks back to |
| LalrTables.AddLalrLookaheads | zener/kernel/tools/yacc.py:2341-2361 | all of these in order, failing exactly when there are too many transitions; the relations are exactly those found, and each set is the least solution over them |
| LalrMeaning.LookaheadsMean | zener/kernel/tools/yacc.py:2210-2361 | hence a symbol is a lookahead of an item in a state if and only if it can be read along reads edges, behind includes edges, from a transition that the item looks back to |
| LalrMeaning.FollowSetsProperExactly | zener/kernel/tools/yacc.py:2222-2269 | the Follow sets equal those of DeRemer and Pennello, whose includes relation follows rules only from where they begin, if and only if no edge of an item with a moved dot leads to a transition whose proper Follow set has more |
| LalrMeaning.ProperFollowWithin | zener/kernel/tools/yacc.py:2222-2269 | they contain them in any case |
| LalrMeaning.LookbackProper | zener/kernel/tools/yacc.py:2258-2269 | for finished items the lookback relation is the proper one, unless a rule contains the symbol '.' |
| LalrMeaning.LookaheadsProper | zener/kernel/tools/yacc.py:2341-2361 | so the lookaheads of finished items are then exactly the LALR(1) ones, and always contain them |
| LalrContexts.FollowsExactly | zener/kernel/tools/yacc.py:2143-2310 | the proper Follow set of a transition is exactly what can come next in some context, opened rule by rule from the start symbol, in which the automaton comes to that transition |
| LalrContexts.LookaheadsOccurExactly | zener/kernel/tools/yacc.py:2143-2333 | so the LALR(1) lookaheads of a finished rule in a state are exactly the symbols that can follow the rule's head in a context in which the automaton comes to the state behind the whole rule: no relation of the generator is in that definition |
| LalrContexts.LookaheadsInContext | zener/kernel/tools/yacc.py:2341-2361 | what the generator computes always holds these, and nothing else unless an edge of a moved item adds something |
| LalrContexts.ContextDerives | zener/kernel/tools/yacc.py:2341-2361 | such a context is part of a form that the start symbol derives |
| StrayExample.StrayLookahead | zener/kernel/tools/yacc.py:2222-2257 | a grammar in which such an edge gives a finished item a lookahead that its state also shifts, so that the generator meets a conflict |
| StrayExample.NotAheadProperly | zener/kernel/tools/yacc.py:2222-2257 | that lookahead is not an LALR(1) one |
| StrayExample.ProperlyConflictFree | zener/kernel/tools/yacc.py:2222-2257 | with the LALR(1) lookaheads the same automaton has no conflict at all |
| LalrTables.LalrDefined | zener/kernel/tools/yacc.py:2405-2408 | every reduce item of every state has a lookahead entry, so the table loop never meets a missing key |
| LalrTables.LalrAdequate | zener/kernel/tools/yacc.py:2143-2358 | LALR lookaheads hold every symbol that can follow the reduced nonterminal in that state |
| LalrTables.LalrParserIsExact | zener/kernel/tools/yacc.py:2341-2539 | a conflict-free LALR table accepts exactly the language |
| SlrTables.SlrAdequate | zener/kernel/tools/yacc.py:2409-2410 | FOLLOW sets are adequate lookaheads too |
| SlrTables.SlrParserExactly | zener/kernel/tools/yacc.py:2365-2539 | a conflict-free SLR table accepts exactly the language if and only if the start symbol can end what the head of the first rule derives, or there are no sentences |
| SlrTables.SlrAcceptsNothing | zener/kernel/tools/yacc.py:1721-1762 | when the start symbol cannot, no SLR table accepts anything, however its conflicts were resolved |
| StartExample.SentenceRejected | zener/kernel/tools/yacc.py:1721-1762 | a grammar with another start symbol than its first head, whose only sentence every SLR table rejects |
| SlrTables.LalrWithinSlr | zener/kernel/tools/yacc.py:2143-2358 | when the end marker follows the start symbol, every LALR lookahead of a reduce of A is in FOLLOW(A) |
| SlrTables.LalrWithinSlrExactly | zener/kernel/tools/yacc.py:1721-1762 | and only then: containment holds if and only if the start symbol can end a form derived from the head of the first rule, which is where FOLLOW was seeded |
| StartExample.LalrOutsideSlr | zener/kernel/tools/yacc.py:1721-1762 | a grammar for which it does not hold |
| SlrTables.DefaultStart | zener/kernel/tools/yacc.py:1730-1735 | compute_follow's default start is the head of the first rule, which is the grammar's start symbol unless set_start chose another |
| Generator.Generate | zener/kernel/tools/yacc.py:1943-1973 | end to end, from a grammar to a parser: it fails exactly on an acceptance conflict or, for LALR, on too many transitions; otherwise the parser accepts only sentences, and if nothing competed exactly the sentences, for SLR under the condition of SlrParserExactly |
| HashMap.GetFindsStored | crust/libs/c_hashmap/hashmap.c:289-318 | in a table where every stored key lies in the eight probes from its home, get finds any stored key |
| HashMap.ProbesAdjoin | crust/libs/c_hashmap/hashmap.c:191-216 | the probes of a key are the slots from its hash modulo the table size on, one after the other, around the end |
| HashMap.GetIsMapLookup | crust/libs/c_hashmap/hashmap.c:289-318 | in an exact table get agrees with looking the key up in the map the table stands for, hits and misses alike |
| HashMap.WriteKeepsExact | crust/libs/c_hashmap/hashmap.c:261-284 | a put of any key at the slot the probe chooses updates the map and keeps the table exact |
| HashMap.PutDuplicatesExactly | crust/libs/c_hashmap/hashmap.c:191-216 | after removals a put stores a second copy of its key exactly when a free slot comes before the stored one within its probes |
| HashMap.ReplayExact | crust/libs/c_hashmap/hashmap.c:221-256 | re-inserting the old slots in order rebuilds the same map, last put winning |
| HashMap.StaleAfterRehash | crust/libs/c_hashmap/hashmap.c:221-256 | the table that put, put, remove and put leave for two colliding keys answers with the new value, and after a rehash with the old one unless the second copy wrapped around |
| HashMap.RehashKeepsExactly | crust/libs/c_hashmap/hashmap.c:221-256 | a rehash keeps get's answer for a key if and only if the copy that is probed first and the last copy in the order of the table have the same data |
| HashMap.Map.FindSlot | crust/libs/c_hashmap/hashmap.c:191-216 | a slot within eight probes of home that is free or holds the key, found exactly when the table is not half full and not all eight are taken by others, and else MAP_FULL |
| HashMap.Map.Find | crust/libs/c_hashmap/hashmap.c:289-318 | reads as Get specifies and changes nothing |
| HashMap.Map.Put | crust/libs/c_hashmap/hashmap.c:261-284 | through any number of doublings and nested rehashes, within any allocation budget: a key that has a place in the table is stored there at once, that slot alone is written and nothing is allocated; a key that has none costs exactly one allocation if and only if there is a place for it once the table is doubled; memory runs out only when no allocation is left and the table then has no place for the key or for one that was stored; on success the map is the old one with the key written |
| HashMap.Map.Rehash | crust/libs/c_hashmap/hashmap.c:221-256 | the doubled table stands for the same map; with an allocation left it succeeds with that one alone if and only if the old slots, one after the other, all find places in it, and then it is that table; it fails only when no allocation is left and a stored key has no place |
| HashMap.Map.Remove | crust/libs/c_hashmap/hashmap.c:351-383 | frees the slot that get would have found, and keeps every remaining key findable |
| LinkerState.Basename | mantle/libs/libLinker/linker.cpp:860-863 | the part of a path after its last slash |
| LinkerTheorems.CountIsReferences | mantle/libs/libLinker/linker.cpp:1620-1639 | between calls every reference count is the outstanding opens, plus preloads, plus DT_NEEDED references with multiplicity, counting the partial ones of libraries that failed to load |
| LinkerTheorems.Acyclic | mantle/libs/libLinker/linker.cpp:886-895 | in every state the DT_NEEDED graph of linked libraries has no cycle |
| LinkerTheorems.NoLeaks | mantle/libs/libLinker/linker.cpp:904-936 | between calls every ready library is reached from an open, a preload or a failed load: unloading leaves nothing behind |
| LinkerTheorems.NoneLost | mantle/libs/libLinker/linker.cpp:904-936 | and everything reached from one of these is there and ready: no library loses a dependency |
| LinkerTheorems.RunsOnce | mantle/libs/libLinker/linker.cpp:1299-1303 | no constructor and no destructor of a loaded library runs twice |
| LinkerTheorems.ConstructorsInOrder | mantle/libs/libLinker/linker.cpp:1299-1347 | constructors run only after those of all transitive dependencies |
| LinkerTheorems.DestructorsInOrder | mantle/libs/libLinker/linker.cpp:904-936 | destructors run only after those of everything that depends on the library, and after its own constructors |
| LinkerTheorems.OpenIsUsable | mantle/libs/libLinker/linker.cpp:1299-1347 | everything a constructed library holds, however remotely, is constructed and not destroyed |
| LinkerTheorems.CloseUndoesOpen | mantle/libs/libLinker/dlfcn.c:54-68 | dlopen and then dlclose leave the same libraries with the same reference counts |
| Linker.Linker.FindLoaded | mantle/libs/libLinker/linker.cpp:855-872 | finds a name in the list exactly when it is there |
| Linker.Linker.FindLibrary | mantle/libs/libLinker/linker.cpp:874-902 | returns the entry exactly when it ends up linked and not failed; an entry still being linked is a recursive link; a new one is added exactly when a file, a short enough name and a free entry are there; whenever the list before the call and the files allow a plan that loads the library it is had, and what came is then such a plan |
| Linker.Linker.LinkImage | mantle/libs/libLinker/linker.cpp:1432-1710 | links exactly when the file is in order and every needed library is ready, and keeps all other libraries |
| Linker.Linker.NeedAll | mantle/libs/libLinker/linker.cpp:1626-1642 | takes one reference on each needed library in order, up to the first that cannot be had; when all can be loaded, by one plan, all are had, absent ones by loading their files |
| Linker.Linker.Load | mantle/libs/libLinker/linker.cpp:275-306 | a new list entry, then linked or left behind as failed |
| Linker.Linker.Unload | mantle/libs/libLinker/linker.cpp:904-936 | gives up one reference: the count drops, or the library and whatever only it needed goes; nothing the program holds goes; it crashes only on the last reference of the linker's own entry |
| Linker.Linker.CallConstructors | mantle/libs/libLinker/linker.cpp:1299-1347 | does nothing a second time; otherwise calls those of the needed libraries in the order of the list and then the library's own, and touches nothing but flags |
| Linker.Linker.DlOpen | mantle/libs/libLinker/dlfcn.c:54-68 | succeeds exactly when the library ends up ready; and, said of the list and the files before the call, whenever the library is usable or can be loaded, and only then if one library has one file whatever path names it; what came is a loading plan that ends with the library; all that has run is what calling its constructors runs, and nothing on failure; one more open of it, nothing else opened, closed, pinned or unloaded, and it is constructed |
| Linker.Linker.DlClose | mantle/libs/libLinker/dlfcn.c:159-164 | one open fewer; libraries that failed to load, are open or are preloaded stay; the program itself stays |
| Linker.Linker.Start | mantle/libs/libLinker/linker.cpp:1754-1935 | program start: succeeds exactly when the program's name is short enough and it and everything needed become ready, and, said of the list and the files before the call, whenever its image is in order and its preloads and needs can all be loaded; then preloads and needed libraries are loaded and hold the references they should, all that has run are the constructors of the preloads in their order and then of the program, and the main program is never without a reference; on failure nothing has run |
| LinkerPlans.LoadedOn | mantle/libs/libLinker/linker.cpp:874-902 | two loads one after the other are one: the missing libraries, each with a file in order and a short enough name, linked after everything it needs |
| LinkerPlans.LoadedTop | mantle/libs/libLinker/linker.cpp:1608-1642 | a library linked after its needs ends such a plan |
| LinkerPlans.LoadedIsPlan | mantle/libs/libLinker/linker.cpp:874-902 | whatever has been loaded could be loaded: where one library has one file, the libraries that came are a plan for the list before the call, with room for all of them |
| LinkerPlans.PlanAnswered | mantle/libs/libLinker/dlfcn.c:54-68 | a call that is given the list and the files answers with the library whenever there is a plan for it, and only then if one library has one file |
| LinkerTheorems.DestroyedExactly | mantle/libs/libLinker/linker.cpp:904-936 | between calls, of all libraries ever linked exactly those that are gone have had their destructors run |
| LinkerLife.UsersGone | mantle/libs/libLinker/linker.cpp:904-936 | when a library has no users left, all libraries linked against it have been destroyed |
| LinkerLife.Completes | mantle/libs/libLinker/linker.cpp:1674 | linking completes into a state of the invariant: ranks grow, and the new library depends only on lower ones |
| PhdrLoader.GetLoadSize | mantle/libs/libLinker/linker_phdr.c:182-212 | computes the extent from the lowest address to the highest end, page-rounded modulo 2^32, and 0 without loadable segments |
| PhdrLoader.SizeOf | mantle/libs/libLinker/linker_phdr.c:182-212 | for a well-formed table that is the distance from the first segment's first page to the last segment's last page, and positive |
| PhdrLoader.ReserveMemory | mantle/libs/libLinker/linker_phdr.c:229-260 | the bias is taken from the first loadable segment, modulo 2^32 |
| PhdrLoader.InsideRange | mantle/libs/libLinker/linker_phdr.c:290-297 | every segment moves by one and the same whole number of pages into the reserved range, although bias and sums wrap |
| PhdrLoader.Process.LoadSegments | mantle/libs/libLinker/linker_phdr.c:275-343 | does the turns of the loop one header after the other and stops at the first refusal |
| PhdrLoader.SegmentLoaded | mantle/libs/libLinker/linker_phdr.c:283-341 | one granted turn leaves the segment readable as expected and everything outside its pages alone |
| PhdrLoader.SegmentsLoaded | mantle/libs/libLinker/linker_phdr.c:275-343 | loading a well-formed table never faults and succeeds if and only if the kernel gives every mapping that is needed; all mappings lie in the reserved range, and then every segment reads as its file bytes and beyond them as expected |
| PhdrLoader.ZeroFilledExactly | mantle/libs/libLinker/linker_phdr.c:56-57 | the bytes beyond filesz are zero, as the technical note promises for every segment, if and only if the segment is writable or its file is padded with zeros |
| PhdrLoader.NotZeroFilled | mantle/libs/libLinker/linker_phdr.c:317-321 | a read-only segment for which they are not |
| Bitfield.Block.constructor | zener/kernel/tools/bitfield_gen.py:2103-2122 | the fields are the named lines in order, each with its line's name, size and alignment, and below each lie exactly the bits of all later lines, padding included |
| Bitfield.SizesAdd | zener/kernel/tools/bitfield_gen.py:2106-2107 | the size of a block is the sum over all its lines, padding included |
| Bitfield.FieldsApart | zener/kernel/tools/bitfield_gen.py:2113-2122 | so every field lies in the block, and each lies above those that follow |
| Bitfield.Block.SetBase | zener/kernel/tools/bitfield_gen.py:2141-2154 | accepts exactly the blocks of whole words in which no field crosses a word |
| Bitfield.LayoutHolds | zener/kernel/tools/bitfield_gen.py:2103-2154 | the fields of an accepted block lie inside its words and share no bits |
| Bitfield.GetSet | zener/kernel/tools/bitfield_gen.py:235-268 | reading a written field gives the value if and only if the field can represent it, high-aligned and sign-extended fields included, and otherwise exactly its representable part |
| Bitfield.GetOther | zener/kernel/tools/bitfield_gen.py:260-268 | writing one field leaves every other field as it was |
| Bitfield.SetsCommute | zener/kernel/tools/bf_autocorres.py:355-375 | writes of different fields commute |
| Bitfield.SetTwice | zener/kernel/tools/bf_autocorres.py:295-312 | only the last of two writes of a field counts |
| Bitfield.SetGet | zener/kernel/tools/bitfield_gen.py:235-268 | writing back what was read changes nothing |
| Bitfield.NewAcceptsExactly | zener/kernel/tools/bitfield_gen.py:2406-2415 | the generator's assertion accepts exactly the values a field can represent |
| Bitfield.GetNew | zener/kernel/tools/bf_autocorres.py:325-353 | every field of a new block reads as the value it was built with |
| Bitfield.WriteAssertionSound | zener/kernel/tools/bitfield_gen.py:260-268 | the assertion of a write guarantees that the value can be read back if and only if the mask constant is not shifted left and, as C types it, is signed or reaches the top of the word after its shift |
| Bitfield.SetAcceptsTooMuch | zener/kernel/tools/bitfield_gen.py:260-268 | otherwise some value passes that the field loses, for every block and field |
| Bitfield.UpperHalfUnchecked | zener/kernel/tools/bitfield_gen.py:260-268 | a 64-bit block whose low 32-bit field passes every value, as its mask constant is 32 bits wide |
| Bitfield.ConstantsHold | zener/kernel/tools/bitfield_gen.py:260-268 | the width that C gives the mask constant always holds the mask |
| TaggedUnion.Union.CheckDuplicates | zener/kernel/tools/bitfield_gen.py:1201-1211 | rejects exactly repeated names and repeated values |
| TaggedUnion.Union.MakeClasses | zener/kernel/tools/bitfield_gen.py:1987-2100 | settles the widths, the places and the masks relative to the lowest tag, and the loops of the sanity checks pass exactly the encodings that meet them all |
| TaggedUnion.Union.CheckMasks | zener/kernel/tools/bitfield_gen.py:1987-2100 | the loops over the class masks accept exactly masks that stay inside their field, of which the narrowest is not empty, neighbours differ and wider ones keep the bits of narrower ones |
| TaggedUnion.DeclaredMasks | zener/kernel/tools/bitfield_gen.py:2030-2046 | the settled mask of a width has its bits exactly where they were declared, counted from where the tags of that width lie |
| TaggedUnion.Union.Resolve | zener/kernel/tools/bitfield_gen.py:1215-1273 | accepts exactly elements with one word size and block size whose tags lie where their width says, in one word, and whose values are in their class |
| TaggedUnion.DecodesTag | zener/kernel/tools/bitfield_gen.py:1697-1710 | for every accepted union the cascade returns exactly the tag a word carries, whatever its other bits |
| TaggedUnion.TagsNeverMixUp | zener/kernel/tools/bitfield_gen.py:1941-1977 | words with different tags never decode alike |
| TaggedUnion.BuiltDecodes | zener/kernel/tools/bitfield_gen.py:1745-1850 | a block built by its generator decodes to the tag it was built with |
| TaggedUnion.EqualsAgrees | zener/kernel/tools/bitfield_gen.py:1712-1728 | with the tags at bit 0 the comparison agrees with reading and comparing, for every word and every tag |
| TaggedUnion.EqualsAgreesExactly | zener/kernel/tools/bitfield_gen.py:1712-1728 | for every accepted union it agrees on all words and tags if and only if there is one tag width or the tags are at bit 0 |
| TaggedUnion.EqualsMisses | zener/kernel/tools/bitfield_gen.py:378-391 | away from bit 0 it can miss a tag that the reader finds |
| EventRing.Event.InsertNext | crust/Runtime/Core/inc/callback.h:129-140 | inserts a node behind this one and keeps the circular list well formed |
| EventRing.Event.Detach | crust/Runtime/Core/inc/callback.h:112-121 | takes a node out and keeps the circular list well formed |
| CallbackQueue.Context.Post | crust/Runtime/Core/carapi/CCallbackContext.cpp:167-266 | refuses when shutting down, and only then marks the event as cancelled and completed; otherwise the event stands behind everything not after it and before everything after it, with what it replaces gone and its priority raised, its marks are left alone, no event meets another fate than being replaced or cancelled by it, and the thread is woken exactly when the queue was empty and the event stayed; the marks of all events still say what has become of them |
| CallbackQueue.Context.CoalesceLoop | crust/Runtime/Core/carapi/CCallbackContext.cpp:195-236 | scans from the back, dropping what the event replaces, up to an event that cancels both |
| CallbackQueue.Context.FindPlace | crust/Runtime/Core/carapi/CCallbackContext.cpp:244-253 | from the back, the first event that may stand before the new one |
| CallbackQueue.BelongsExactly | crust/Runtime/Core/carapi/CCallbackContext.cpp:244-253 | in a sorted queue that place is the only one that keeps order and serves equals first in, first out |
| CallbackQueue.OnlyOneLeft | crust/Runtime/Core/carapi/CCallbackContext.cpp:195-256 | posting a duplicated event without a coalescer leaves exactly one event with its key, at the most urgent priority among itself and all it replaced, with all others kept |
| CallbackQueue.UrgencyIsLeast | crust/Runtime/Core/carapi/CCallbackContext.cpp:196-201 | the last event replaced in the reverse scan is the most urgent, because the queue is sorted |
| CallbackQueue.KeptExactly | crust/Runtime/Core/carapi/CCallbackContext.cpp:198-236 | exactly the events that are not replaced are kept |
| CallbackQueue.KeptInOrder | crust/Runtime/Core/carapi/CCallbackContext.cpp:198-236 | and they keep their order |
| CallbackQueue.Context.CancelChosen | crust/Runtime/Core/carapi/CCallbackContext.cpp:385-397 | cancels exactly the events selected, marks them cancelled and completed, and keeps the rest in order with the count right; the marks of all events still say what has become of them |
| CallbackQueue.RejectedExactly | crust/Runtime/Core/carapi/CCallbackContext.cpp:442-457 | what is left are exactly the events not selected |
| CallbackQueue.Context.CancelAllPendingCallbacks | crust/Runtime/Core/carapi/CCallbackContext.cpp:378-402 | selects by sender |
| CallbackQueue.Context.CancelPendingCallback | crust/Runtime/Core/carapi/CCallbackContext.cpp:404-430 | selects by sender and id; the selected are marked cancelled and completed with that fate, and all others keep status, completion and fate |
| CallbackQueue.Context.CancelCallbackEvents | crust/Runtime/Core/carapi/CCallbackContext.cpp:432-457 | selects by sender, id and handler; the selected are marked cancelled and completed with that fate, and all others keep status, completion and fate |
| CallbackQueue.Context.CancelAllCallbackEvents | crust/Runtime/Core/carapi/CCallbackContext.cpp:475-493 | empties the queue; every pending event is marked cancelled and completed with that fate, and no other is touched |
| CallbackQueue.Context.Dequeue | crust/Runtime/Core/carapi/CCallbackContext.cpp:531-542 | takes the first event exactly when it is due |
| CallbackQueue.Context.Begin | crust/Runtime/Core/carapi/CCallbackContext.cpp:627-643 | the handler is called unless there is none, its object is gone or the sender that waited has given up; then the event is running, and a call that is skipped for the last reason is completed |
| CallbackQueue.Context.End | crust/Runtime/Core/carapi/CCallbackContext.cpp:668-672 | a call that was waited for is completed, with that status |
| CallbackQueue.Context.GiveUp | crust/Runtime/Core/carapi/CCallbackContext.cpp:328-356 | a sender that waits no longer marks its event wherever it is; the marks still say what has become of each event: a dropped one is cancelled and completed, a waiting one is neither unless given up, and no event is completed that was neither dropped nor handled |
| InterfaceList.ClassInfo.Climb | crust/Runtime/Core/reflection/CClassInfo.cpp:999-1008 | collects an interface's ancestors up to the root, and the scratch array is always long enough |
| InterfaceList.ClassInfo.Record | crust/Runtime/Core/reflection/CClassInfo.cpp:1011-1060 | marks the row of an interface already listed or appends one, keeps the table free of duplicates with every begin number right, counts each mark once, and never runs past the table's end |
| InterfaceList.ClassInfo.AddAll | crust/Runtime/Core/reflection/CClassInfo.cpp:989-1060 | after all chains the table lists each interface where its chain first comes to it, marked by the chains of the normal and of the callback interfaces |
| InterfaceList.EachOnce | crust/Runtime/Core/reflection/CClassInfo.cpp:1008-1060 | the table names exactly the interfaces on some chain, each once, parents before children |
| InterfaceList.NumbersApart | crust/Runtime/Core/reflection/CClassInfo.cpp:1016-1057 | begin numbers are the start number plus the method counts of all proper ancestors, so inherited methods keep their numbers and no two methods on a chain share one |
| InterfaceList.ClassInfo.Collect | crust/Runtime/Core/reflection/CClassInfo.cpp:1069-1086 | fills both lists exactly to their lengths, in table order, the root left out of the callback list, and totals their methods |
| InterfaceList.ClassInfo.ListIs | crust/Runtime/Core/reflection/CClassInfo.cpp:984-1067 | the counters kept while the table was built are the exact lengths of the two lists |
| InterfaceList.PickedRows | crust/Runtime/Core/reflection/CClassInfo.cpp:1069-1086 | each list consists of rows of the table as they stand: every row with the list's mark, once and in the table's order |
| InterfaceList.ClassInfo.NumberAll | crust/Runtime/Core/reflection/CClassInfo.cpp:1088-1104 | fills the callback method table exactly to its length, two event numbers left unused after each interface |
| InterfaceList.NumberedAt | crust/Runtime/Core/reflection/CClassInfo.cpp:1093-1104 | the j-th method of an interface in the callback list carries its begin number plus j, and its event number counts all methods before it and two more for each interface before it |
| InterfaceList.EventsDiffer | crust/Runtime/Core/reflection/CClassInfo.cpp:1093-1104 | callback methods get rising, so distinct, event numbers, and no method appears twice |
| InterfaceList.ClassInfo.CreateIFList | crust/Runtime/Core/reflection/CClassInfo.cpp:963-1106 | the first call leaves exactly these lists, counts and callback methods, a later one changes nothing |
| Breakpoints.Stub.Validate | zener/libs/lib-gdb/gdb_stub.c:378-411 | fails exactly when the place cannot be read and written in full, and leaves memory as it was unless the write of the trap stopped half way |
| Breakpoints.Stub.SetBreak | zener/libs/lib-gdb/gdb_stub.c:451-489 | fails exactly when the place is not accessible, a waiting breakpoint is there already or no slot is free; takes a removed slot before an undefined one; memory is untouched |
| Breakpoints.Stub.RemoveBreak | zener/libs/lib-gdb/gdb_stub.c:512-524 | gives up exactly a waiting breakpoint at that address, if there is one |
| Breakpoints.Stub.Activate | zener/libs/lib-gdb/gdb_stub.c:429-449 | memory is the original overlaid with traps at exactly the active breakpoints, up to the first that faults, which is the only way to fail |
| Breakpoints.Stub.Deactivate | zener/libs/lib-gdb/gdb_stub.c:491-510 | takes traps off up to the first that faults; without a fault none is active and memory is the original |
| Breakpoints.Stub.RemoveAll | zener/libs/lib-gdb/gdb_stub.c:539-560 | frees every slot, and memory is the original again if and only if every byte that could not be written back equals the trap's |
| Breakpoints.ClearedWhen | zener/libs/lib-gdb/gdb_stub.c:547-559 | the same for any table of slots that do not overlap |
| Breakpoints.RestoredExactly | zener/libs/lib-gdb/gdb_stub.c:380-395 | any number of traps, overlapping or not, written in order and taken off in the same order restore memory if and only if wherever two of them cover a byte the lower of the top two has the program's own byte there |
| Breakpoints.RestoredWhenApart | zener/libs/lib-gdb/gdb_stub.c:429-510 | so traps that do not overlap always do |
| Breakpoints.Stub.IsRemoved | zener/libs/lib-gdb/gdb_stub.c:526-537 | tells whether a removed breakpoint has that address |
| GdbPacket.Hex2Mem | zener/libs/lib-gdb/gdb_stub.c:161-175 | decodes in place from the right into the buffer's upper half without ever overwriting a digit it has yet to read |
| GdbPacket.Mem2Hex | zener/libs/lib-gdb/gdb_stub.c:181-202 | writes the digits of memory and a NUL, and nothing beyond |
| GdbPacket.DecodeEncode | zener/libs/lib-gdb/gdb_stub.c:161-202 | decoding what was encoded gives back the memory |
| GdbPacket.EncodeDecode | zener/libs/lib-gdb/gdb_stub.c:115-129 | encoding what was decoded gives back the text in lower case if and only if it was all digits |
| GdbPacket.Line.PutPacket | zener/libs/lib-gdb/gdb_stub.c:271-316 | sends the frame once more than there are replies before the first '+' or '$', refuses on '$', and waits for ever without such a reply |
| GdbPacket.AnswerIs | zener/libs/lib-gdb/gdb_stub.c:297-316 | the reply that stops it is the first '+' or '$' |
| GdbPacket.Line.GetPacket | zener/libs/lib-gdb/gdb_stub.c:319-366 | reads, stores, terminates and answers as the reference reader does, whatever arrives |
| GdbPacket.FrameIsReceived | zener/libs/lib-gdb/gdb_stub.c:319-366 | acknowledges and returns any framed payload without '#' of at most BUFMAX - 2 bytes, whatever bytes other than '$' precede it and whatever follows |
| GdbPacket.AttemptFrame | zener/libs/lib-gdb/gdb_stub.c:331-365 | a frame that fits is returned and acknowledged when its digits are its checksum, and refused otherwise, and either way read to its end |
| GdbPacket.AttemptOverlong | zener/libs/lib-gdb/gdb_stub.c:342-365 | BUFMAX - 1 bytes without '#' are returned when they sum to 255 and passed over otherwise, and nothing is written for them |
| GdbPacket.AttemptWaits | zener/libs/lib-gdb/gdb_stub.c:326-353 | it waits for more exactly when no start character is left, or the first one is followed by less than a payload with its two digits or a full buffer |
| GdbPacket.ReceivedIsFramed | zener/libs/lib-gdb/gdb_stub.c:332-365 | whatever arrives, what is returned is a whole frame with the right checksum that got the only acknowledgement, or else BUFMAX - 1 bytes without '#' that sum to 255 and got none |
| GdbPacket.Conversation | zener/libs/lib-gdb/gdb_stub.c:271-366 | when frames arrive with a byte changed, every such frame is refused, the first whole one is acknowledged and its payload returned, and the replies make the sender send exactly that often |
| Formatter.FormatNumber | mantle/libs/libLinker/linker_format.c:367-400 | leaves the numeral, or as many of its last digits as fit, and a NUL, by reversal in place |
| Formatter.NumeralValue | mantle/libs/libLinker/linker_format.c:374-379 | the numeral stands for the number |
| Formatter.NumeralIsCanonical | mantle/libs/libLinker/linker_format.c:374-388 | it consists of digits of the base and starts with a zero only if it is 0 |
| Formatter.ParseDecimal | mantle/libs/libLinker/linker_format.c:343-361 | reads the digits that stand there modulo 2^32 and stops behind them |
| Formatter.ParseInverts | mantle/libs/libLinker/linker_format.c:343-400 | reads back any printed number below 2^32 |
| Formatter.SignedReadsBack | mantle/libs/libLinker/linker_format.c:552-577 | what %d prints for an operand of any size reads back as its signed value |
| Formatter.Convert | mantle/libs/libLinker/linker_format.c:535-589 | each conversion yields its text: strings, characters, pointers, and integers cut to size and sign-extended; no number overflows the 32 characters |
| Formatter.NothingPrinted | mantle/libs/libLinker/linker_format.c:535-589 | %u and %% take an argument and print nothing, and are incomplete without one |
| Formatter.OctalIsSigned | mantle/libs/libLinker/linker_format.c:548-576 | %o prints the unsigned octal numeral if and only if the operand is not negative |
| Formatter.PaddingStandardExactly | mantle/libs/libLinker/linker_format.c:590-607 | a padded conversion is what the C standard asks for if and only if zeros are not put before a sign or behind the text |
| Formatter.BufOut.Send | mantle/libs/libLinker/linker_format.c:89-110 | the buffer holds as much of all that was sent as fits, ends in a NUL, and the total is the full length |
| Formatter.BufOut.SendRepeat | mantle/libs/libLinker/linker_format.c:57-72 | sends the character exactly that often |
| Formatter.BufOut.ReadDirective | mantle/libs/libLinker/linker_format.c:492-533 | flags, width, precision and operand size are read to the conversion character |
| Formatter.BufOut.Vformat | mantle/libs/libLinker/linker_format.c:428-608 | sends exactly the rendering of the format with its arguments |
| Formatter.VformatBuffer | mantle/libs/libLinker/linker_format.c:112-148 | for every format whose directives are complete and supplied, the result is the full length and the buffer holds the longest prefix that fits, NUL-terminated; an empty buffer yields 0 |
| Formatter.PlainText | mantle/libs/libLinker/linker_format.c:447-464 | text without a percent sign stands for itself |
| FormatterMeaning.DirectiveReads | mantle/libs/libLinker/linker_format.c:466-533 | a directive written with any flags, width below 2^31, precision, size letters and conversion reads back as exactly these |
| FormatterMeaning.PieceByPiece | mantle/libs/libLinker/linker_format.c:428-608 | a format prints the text before a directive, what the directive makes of the next argument, and then what the rest prints for the other arguments; it is supplied exactly when the rest is |
| FormatterMeaning.LonePercent | mantle/libs/libLinker/linker_format.c:470-476 | a percent sign that nothing but flags follows is printed, and they are not |
| FormatterMeaning.TextShown | mantle/libs/libLinker/linker_format.c:536-538 | %s sends its argument |
| FormatterMeaning.CharacterShown | mantle/libs/libLinker/linker_format.c:539-544 | %c sends the character of its argument's lowest byte, and nothing for 0 |
| FormatterMeaning.PointerShown | mantle/libs/libLinker/linker_format.c:545-550 | %p sends 0x and the argument's 32 bits in lower-case hexadecimal |
| FormatterMeaning.HexShown | mantle/libs/libLinker/linker_format.c:552-583 | %x and %X with any size letters send the hexadecimal digits, of the right case and without leading zeros, that stand for the argument modulo the values of that size |
| FormatterMeaning.SignedShown | mantle/libs/libLinker/linker_format.c:552-580 | %d, %i and %o with any size letters send the digits, with a sign if it is negative, that stand for the argument cut to that size and read as signed |

## Left out

- LalrTables.ComputeFollowSets: the read sets given to it are taken as fresh lists; in the source a cycle of the reads relation makes lists shared between nodes, and the appends of the second traversal reach all of them.
- LrEngine.LRParser.Parse: stops at the first syntax error; error tokens, recovery and the resynchronising stack pops are not part of this model, and semantic actions build a parse tree.
- ParseTable.BuildTables: the counters of conflicts and the logs are not modelled; a terminal spelled like the dot marker of an item is (see Lookahead.SamePrefix).
- LrHalting.Halts: covers grammars without empty rules and circles of one-symbol rules; that the engine stops for other grammars is not proved.
- LrAutomaton.Builder.Goto: the memo that is keyed by object identity and symbol is not modelled; states are compared by their item lists, which is what the trie of moved items amounts to.
- Cfg: the checks of add_production, set_start and undefined_symbols are taken as done; the grammar has the shape they leave behind.
- GrammarTables.Grammar.ComputeFirst: First and Follow are sets instead of duplicate-free lists; the order of their elements is not modelled.
- HashMap.Map.Put: hashmap_length counts overwrites and is not claimed to be the number of keys; hashing of strings is a function parameter.
- Linker.Linker.DlOpen: when two paths to one library name different files, that it is opened only if it can be loaded is not claimed; that it is opened whenever it can be is, and what came is a loading plan.
- Linker.Linker.FindLibrary: opening, mapping and checking a file are one given answer per path for the duration of a call; prelinked libraries, the debugger's list and symbol relocation are parts of that answer.
- Linker.Linker.CallConstructors: constructors that themselves open or close libraries are not modelled, nor is the preinit array of the main program.
- Linker.Linker.DlClose: is called only on handles with an outstanding open; the unsigned reference count is unbounded here.
- Linker.Linker.Start: the main program's name is taken to differ from the linker's own entry, which the source does not check.
- PhdrLoader.ReserveMemory: the kernel is taken not to grant a range that ends at the very top of the address space.
- PhdrLoader.Process.LoadSegments: page protection is modelled only as far as it decides which bytes are zeroed; bytes of whole pages beyond the end of a file read as zero instead of faulting.
- Bitfield.Block.constructor: the order of the generator's arguments (visible_order) and its checks are not modelled; arguments come in field order.
- Bitfield.ConstantsHold: the target's int has 32 bits and its long at least as many; shifting a negative constant left keeps its bits.
- Bitfield.NewAcceptsExactly: a field of a whole word has no assertion in the generated code, and none here.
- TaggedUnion.Union.MakeClasses: the text of the diagnostics is not modelled; a mask without a field and a field without a mask are one refusal.
- CallbackQueue.Context.Dequeue: sleeping until the event is due, and the selection by priority, are not modelled; one call is one attempt at a given time.
- CallbackQueue.Context.CancelCallbackEvents: the wait for running events behind the working lock is not modelled.
- CallbackQueue.Context.Begin: the handler itself runs between this section and the next; what it does to other events is their own calls.
- CallbackQueue.Context.Post: an event is posted once; semaphores and reference counts of events are not modelled; what the coalescing function answers is given beforehand for every pending event.
- InterfaceList.ClassInfo.CreateIFList: allocation failures and the exit that clears the counts, the packing of interface and method numbers into one word (MK_METHOD_INDEX) and the names in a row are not modelled; parent links are taken to be acyclic.
- Breakpoints.Stub.SetBreak: is called only where no enabled breakpoint overlaps, other than a waiting one at that very address (Breakpoints.RestoredWhenApart says what happens otherwise); instruction cache flushes and the breakpoint type are not modelled.
- Breakpoints.Stub.Activate: a fault is a set of bytes that cannot be read or written at the moment of the call; the number of slots and the trap's size are any.
- GdbPacket.Hex2Mem: the copy of the decoded bytes to memory is Breakpoints.Stub.ProbeWrite and is not repeated here.
- GdbPacket.Conversation: damage is one changed byte of a payload, not turned into '#'; damaged delimiters and digits are not covered.
- Formatter.VformatBuffer: formats whose last directive is cut short, and missing or mistyped arguments, are undefined in the source and excluded; sizes are those of a 32-bit target, and the total is unbounded.
- Formatter.BufOut.Send: the case of a negative length, which no caller uses, is not modelled; vsnprintf, which passes its argument list on as one argument, is not either.
- The stub's command dispatch, registers, hardware breakpoints, and gdb_msg_write are not part of this model.
- The lexer, error recovery, table files and reflection of the parser generator, the Isabelle output of the bitfield compiler, and the remaining linker services (thread storage, environment, debugger socket) are not part of this model.
- Headers, build scripts, XML generators, cpio and echo tools, thin wrappers and the other reflection getters would only add easy members.
