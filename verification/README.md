# YLISP: a verified model of its hard parts

YLISP is a Lisp interpreter written in C. This project models its self-contained
cores in Dafny and proves what they are for:

- **Collector, SymbolRoots, Reachability.** The fixed block pool, a permutation of block
  pointers split at one index, and the mark-and-sweep collector that mutates that table
  while it iterates over it. A collection keeps exactly the blocks in use that can be
  reached from the base blocks and from the values in the symbol tables, which it finds by
  walking the tries.
- **Evaluator, Agreement, Transparency.** `yleval`, its forms, macros included, and its
  base-block discipline. Any two schedules of collections at the safe points, the empty one
  included, give the same value, down to its last cell, or the same failure; no freed block
  is ever read; the base-block stack is restored exactly. The same holds for whole sessions
  of expressions that are read and evaluated in turn.
- **Values, Interpreter, Meaning, Expansion, Refinement.** What an expression evaluates to,
  said of trees and variables, without a heap, base blocks or safe points; and that
  `yleval` computes it: with any collections, the reference that it returns represents the
  interpreter's value, the symbol tables are what the interpreter says, and it fails when
  the interpreter does. The in-place expansion of macros is the substitution on trees.
- **Laws, FormLaws.** What each form means in terms of the values of its parts, from
  `quote` to `f-while`: laws about the interpreter that mention none of its functions for
  single forms.
- **HeapRuns, PooledHeap.** Every evaluation logs what it does to its heap: each cell it
  makes, each pair it overwrites, each collection with its roots. The log names live cells
  only, and replaying it leads from the heap in which the evaluation starts to the one in
  which it returns. Carried out on the block pool, which uses a freed block again, the log
  leaves a pool that realises that heap, unless the pool is full when a cell is asked for.
- **BaseBlocks.** The growing stack under the base blocks, with removal of the topmost
  occurrence, for one thread and for any interleaving of many.
- **SafePoint.** The stop-the-world protocol of any number of threads over one mutex, one
  condition variable (with spurious wake-ups) and the SAFE bits: nobody evaluates during
  a collection, no wake-up is lost, the threads never all wait.
- **Grammar, ReaderSteps, ReaderHeap, Parser.** The reader automaton, with its state
  stack, its pair stack and the cons cells it builds through tail pointers, against a
  recursive-descent reader of the same grammar.
- **ReaderLaws.** A way to write down any program, with blanks, comments, strings, escapes
  and quote marks, and that it is read as what was written; the errors.
- **PrintedText, Legibility, Printer.** Printing any heap graph, cyclic or not, and
  reading the text back: which trees survive the round trip, exactly.
- **Keys, Trie, Walk, SymbolTable.** The 4-bit trie against a plain map, in canonical
  form: insert, delete with pruning, equality, auto-completion, the ordered walk, and
  the symbol-table queries on top of it.
- **HashMap.** The resizing hash map against a plain map, with its load bounds.
- **Macro.** Macro expansion in place on a cloned body against the pure `ylsublis`.

Code that updates memory in place is modelled by classes and arrays with loops; code
that only computes is modelled by functions. `Common.dfy` holds what several modules
share.

Places where the code differs from what its comments or its callers suggest, and where
the model follows the code:

- A quote mark stays open and collects every adjacent element, so `'a'b` reads as
  `(quote a (quote b))` (`Grammar.QuoteTail`).
- The printer reports a cycle for some pairs that are merely shared, because the car
  stays in the address map while the cdr is printed. `Printer.FalseCycle` gives such a
  graph. Among acyclic graphs a cycle is reported exactly when some pair is the car of
  another one and is met again in that one's cdr (`Printer.ReportedIff`); every cyclic
  graph is reported.
- Printing and reading is not the identity on every tree: `nil` inside a list is printed
  as the symbol `NIL`, a dotted pair becomes one symbol, and symbols are not escaped.
  `Legibility.ReadsBackIff` states the exact condition; `Legibility.NilInList` is an input.
- `_mbt_foreach_used` reads one entry past the end of the pointer table after its last
  iteration, and `stack_foreach` one item past the last: outside the array exactly when the
  stack is full (`ylisp/stack.h:139`, `ylisp/mempool.c:172`). The model reads only entries
  that exist.
- `ylslu_candidates` takes the size of each buffer but never looks at it. A write leaves
  its buffer exactly when one of the names that are copied has that many bytes or more
  (`SymbolTable.Candidates`, with an input in `SymbolTable.EscapesTwoBytes`). The callers
  that size their buffers by `ylsym_nr_candidates` are safe (`SymbolTable.ListAll`).
- Auto-completion violates the assertion of `ylisp/trie.c:513` exactly for the empty
  prefix in an empty trie; where assertions are off, the result there is a leaf with an
  empty text. With a buffer of size 0 the unsigned `bufsz-1` never stops it, and it writes
  outside the buffer exactly when some key has the prefix, or when the empty trie gives
  that empty text (`Trie.Trie.AutoComplete`, where the assertion comes first;
  `Trie.CompleteNothing` is an input).
- The hash map stores the empty key, but destroying its entry violates the assertion of
  `ylext/hash.c:144`: that happens exactly when a stored empty key is deleted or
  overwritten (`HashMap.HashMap.Del`, `HashMap.HashMap.Add`; `HashMap.AddEmptyTwice` is an
  input).

## Model

| member | source | states |
|---|---|---|
| Collector.Pool.constructor | ylisp/blktbl.h:86-109 | a new pool is a valid permutation with every block free |
| Collector.Pool.Allocate | ylisp/blktbl.h:129-135 | fails exactly when no block is free, never hands out a block in use, returns it clean, changes no other block |
| Collector.Pool.Put | ylisp/blktbl.h:137-150 | the block and the first used one exchange their places in the pointer table and their indices, and the split moves up by one |
| Collector.Pool.Release | ylisp/mempool.c:139-144 | the block is clean and free, every other block keeps its contents, mark and status, the pointer table stays a permutation with exactly two entries exchanged |
| Collector.Pool.Mark | ylisp/yldev.h:704-723 | recursive marking of any graph, cyclic or shared, terminates and marks exactly what is reachable through unmarked blocks, changing nothing but marks |
| Collector.Pool.MarkEach | ylisp/yldev.h:710-719 | the same for all the children that one block reports |
| Collector.Pool.ClearMarks | ylisp/mempool.c:166-168 | no block in use is marked afterwards, nothing else changes |
| Collector.Pool.MarkRoots | ylisp/mempool.c:170-184 | base blocks, then the references of every thread's table, then those of the global table: together they mark from the union of the roots |
| Collector.Pool.Sweep | ylisp/mempool.c:188-193 | although it exchanges entries of the table it walks over, each used block is met once: a block is in use afterwards iff it was in use and marked, and the others are clean |
| Collector.Pool.Collect | ylisp/mempool.c:159-200 | a block is in use afterwards iff it was and is reachable from the roots; survivors keep their contents; if no reference dangled before, none does after; a used block that is the car or cdr of a surviving pair, or is reported by a surviving atom, survives; so does every used block among the roots; and any set that holds the roots and is closed in that sense holds all survivors |
| Collector.ReferredSurvive | ylisp/yldev.h:704-723 | what a collection keeps is closed: the car and cdr of its pairs, and whatever its atoms report, as arrays and maps do |
| Collector.AllRootsSurvive | ylisp/mempool.c:170-184 | it holds every used block among the base blocks, the references of each thread and the global ones |
| Collector.NoMoreSurvive | ylisp/mempool.c:186-193 | and it is contained in every other closed set that holds them |
| Collector.PhasesCollect | ylisp/mempool.c:159-193 | clearing, marking and sweeping one after the other free exactly the blocks in use that cannot be reached |
| Collector.MarkedFromCompose | ylisp/mempool.c:170-184 | marking from one set of roots and then from another is marking from their union |
| Collector.MarkedFromParent | ylisp/yldev.h:708-719 | marking a block and then from its children is marking from the block |
| Collector.MarkedIsReachable | ylisp/mempool.c:159-184 | started without marks, the marked blocks are the reachable ones |
| Collector.ReachedStaysSound | ylisp/mempool.c:188-193 | with no dangling reference before, sweeping the unreached leaves none |
| SymbolRoots.Gathered | ylisp/symlookup.c:179-186 | the marking callback never stops a walk and sees every value that it reports |
| SymbolRoots.WalkMeetsAll | ylisp/symlookup.c:188-192 | the full walk of a table meets every stored value and no other |
| SymbolRoots.SymbolRefs | ylisp/symlookup.c:188-192 | the references found by the walk lead to exactly the blocks that the table's values are |
| SymbolRoots.MarkTable | ylisp/symlookup.c:177-192 | a table marks from exactly the blocks that its values are |
| SymbolRoots.ThreadRefs | ylisp/mempool.c:149-153 | the same for the tables of all threads together |
| SymbolRoots.CollectAll | ylisp/mempool.c:159-200 | a whole collection over the real tables: a block is in use afterwards iff it was and can be reached from a base block, from a symbol of some thread or from a global symbol; survivors keep their contents; the used values of all tables survive, and so does what a survivor's car, cdr or visit callback leads to, and nothing else |
| SymbolRoots.TablesSurvive | ylisp/symlookup.c:177-192 | every value of a table that is a block in use survives |
| SymbolRoots.NothingElseSurvives | ylisp/mempool.c:186-193 | any set that holds base blocks and table values and what its blocks lead to holds all survivors |
| Reachability.ReachableLeast | ylisp/yldev.h:704-723 | the reachable blocks are the least set that holds the roots and is closed under references |
| Reachability.ReachableCompose | ylisp/mempool.c:170-184 | what is reachable from two sets of roots is what is reachable from either |
| Transparency.CollectionIsTransparent | ylisp/sfunc.c:633-704 | for every well-formed state, expression, environment and pair of collection schedules: the same value, every cell that can be reached from it being present in both final heaps with the same contents, the same symbol tables, the base-block stack exactly as before, and well-formed states to go on from; or the same failure, which is never a read of a freed block |
| Transparency.SessionIsTransparent | ylisp/parser.c:253-262 | the same for any number of expressions that are read and evaluated in turn: the same values one after the other, and the same end |
| Transparency.SessionAgree | ylisp/parser.c:253-262 | a session without collections and one with them agree at every expression |
| Transparency.BuildAgree | ylisp/parser.c:336-484 | the cells of an expression that is read are the same in both runs |
| Transparency.FreshSession | ylisp/mempool.c:283-299 | a session that starts with no base blocks and no dangling reference is well-formed |
| Transparency.CommonIsClosed | ylisp/mempool.c:159-193 | two heaps that agree on the cells both hold agree on everything that can be reached from a reference both hold |
| Transparency.EvaluationIsRun | ylisp/sfunc.c:633-704 | what an evaluation has logged, each cell it made, each pair it overwrote and each collection with its roots, leads from the heap in which it started to the heap in which it returns, and never names a collected cell |
| Transparency.SessionIsRun | ylisp/parser.c:253-262 | so does what a session has logged, up to each value that it returns |
| PooledHeap.SameReach | ylisp/yldev.h:704-723 | a cell can be reached from the roots exactly when its block can be reached from theirs |
| PooledHeap.NewRealised | ylisp/mempool.c:72-96 | a free block, whoever had it before, is a new cell |
| PooledHeap.CollectRealised | ylisp/mempool.c:159-200 | collecting the pool from the blocks of the roots is collecting the heap |
| PooledHeap.Make | ylisp/mempool.c:72-96 | a cell is made in a free block exactly when there is one, and the pool realises the heap with that cell |
| PooledHeap.Overwrite | ylisp/sfunc.c:178-215 | the pool realises the heap with the pair overwritten |
| PooledHeap.Gather | ylisp/mempool.c:159-200 | the pool realises what the collection leaves, and forgets the names of the cells that are gone |
| PooledHeap.Execute | ylisp/blktbl.h:129-150 | carrying out any run of heap operations, with blocks used again as soon as they are free, the pool realises every heap of the run, until no block is free and one more cell is asked for |
| PooledHeap.RunEvaluation | ylisp/sfunc.c:633-704 | an evaluation with any collections, in the pool: carrying out its own log, operation by operation, from a pool that realises the heap in which it starts, leaves a pool that realises the heap in which it returns, its value included; or stops at the cell for which no block is free |
| PooledHeap.RunSession | ylisp/parser.c:253-262 | the same for a session, from the empty pool and up to each of its values |
| PooledHeap.NothingRealised | ylisp/blktbl.h:86-109 | a new pool realises the empty heap |
| HeapRuns.RunsCompose | ylisp/sfunc.c:633-704 | one run of heap operations after another is a run |
| HeapRuns.ReplaysTrans | ylisp/sfunc.c:633-704 | what is logged in two steps replays over both |
| HeapRuns.CollectReplays | ylisp/mempool.c:159-193 | a collection is one operation, from exactly the base blocks and the values in the symbol tables |
| Transparency.EvalAgree | ylisp/sfunc.c:633-704 | one evaluation without collections and one with them agree, from states that agree on what the second still holds |
| Transparency.LeaveAgree | ylisp/sfunc.c:672-701 | the end of `yleval`: both base blocks go, the result is protected over the safe point and released |
| Agreement.SafePointAgree | ylisp/sfunc.c:694-695 | a safe point, with or without a collection, keeps well-formedness, everything the base blocks protect, and agreement |
| Agreement.CollectWF | ylisp/mempool.c:159-193 | a collection keeps a state well-formed and frees nothing that a base block or a symbol reaches |
| Agreement.StillHeld | ylisp/yldev.h:513-576 | what is protected before an evaluation is protected after it |
| Agreement.BothReleased | ylisp/mempool.c:108-127 | removing the two base blocks of `yleval` in the order they were pushed restores the stack, although removal takes the topmost occurrence |
| Transparency.FormAgree | ylisp/sfunc.c:656-663 | the dispatch on atom, function form and lambda form agrees |
| Transparency.AtomAgree | ylisp/sfunc.c:383-400 | evaluating a symbol, macro symbols included, agrees |
| Agreement.AssocAgree | ylisp/sfunc.c:300-374 | association list, thread table, global table and numerals are searched with the same result |
| Transparency.CallAgree | ylisp/sfunc.c:402-457 | the function form agrees for macros, special and native functions |
| Transparency.ApplyNativeAgree | ylisp/sfunc.c:430-446 | the function is protected while its arguments are evaluated |
| Transparency.RunNativeAgree | ylisp/sfunc.c:444-446 | the arguments are protected while the function is called |
| Transparency.ListAgree | ylisp/ylsfunc.h:292-306 | each evaluated argument is protected while the later ones are evaluated |
| Transparency.LambdaAgree | ylisp/sfunc.c:600-630 | the lambda, mlambda, label and flabel forms, and the form that evaluates its head, agree |
| Transparency.EnterAgree | ylisp/sfunc.c:460-479 | binding parameters and evaluating the body agrees |
| Transparency.LabelAgree | ylisp/sfunc.c:527-547 | binding the label and evaluating the call agrees |
| Agreement.AssignAgree | ylisp/sfunc.c:178-215 | `set`, `tset`, `mset` and `tmset` overwrite the same association or the same table entry |
| Agreement.ListFindAgree | ylisp/sfunc.c:132-142 | searching an association list agrees |
| Agreement.EqualAgree | ylisp/sfunc.c:92-116 | structural equality agrees |
| Agreement.CloneAgree | ylisp/sfunc.c:75-82 | cloning a macro agrees |
| Agreement.BindAgree | ylisp/ylsfunc.h:244-254 | pairing parameters with arguments agrees, mismatches included |
| Agreement.AppendAgree | ylisp/ylsfunc.h:224-227 | extending the environment agrees |
| Agreement.QuoteAgree | ylisp/sfunc.c:711-717 | quoting the arguments of `apply` agrees |
| Transparency.EachAgree | ylbase/nfunc.c:48-54 | `progn` agrees |
| Transparency.CondAgree | ylbase/nfunc.c:61-88 | `cond` agrees, its malformed clauses included; which clause it takes is Refinement.CondIs and Laws.CondLaw |
| Transparency.JunctionAgree | ylbase/nfunc.c:90-106 | `and` and `or` agree |
| Agreement.ExpandMacroAgree | ylisp/sfunc.c:481-524 | expanding a macro form agrees, and overwrites nothing but its own copy of the body |
| Agreement.ReplaceAgree | ylisp/sfunc.c:247-292 | replacing parameters in place agrees |
| Agreement.AttachAgree | ylisp/sfunc.c:497-503 | attaching the arguments agrees |
| Agreement.CloneGrown | ylisp/sfunc.c:75-82 | a clone is a tree of pairs of its own, in cells that are new |
| Agreement.ReplaceWithin | ylisp/sfunc.c:247-292 | replacing in such a tree overwrites cells of the tree only, and no atom |
| Agreement.SubtypeAgree | ylisp/sfunc.c:199-203 | writing the subtype of a symbol agrees |
| Agreement.UnsetAgree | ylisp/nfunc.c:156-170 | `unset` and `tunset` agree |
| Transparency.MacroLabelAgree | ylisp/sfunc.c:549-598 | the flabel form agrees: its name becomes a macro symbol, and its parts outlive the evaluation of its arguments |
| Transparency.LetAgree | ylbase/nfunc.c:137-165 | `f-let` agrees, through the lambda form that it builds |
| Transparency.CaseAgree | ylbase/nfunc.c:168-207 | `f-case` agrees: the key is protected while the clauses are tested, and the clause that is found is still protected when the key is released |
| Transparency.FindCaseAgree | ylbase/nfunc.c:174-192 | the search for the clause agrees |
| Transparency.WhileAgree | ylbase/nfunc.c:210-219 | `f-while` agrees |
| Refinement.EvaluatesTo | ylisp/sfunc.c:633-704 | for every well-formed state whose cells below `e` and `a` represent an expression and an environment, and every schedule of collections: `yleval` returns a reference that represents the value which the interpreter gives the expression, and leaves the symbol tables as it says, or fails when it fails; only the bound on steps may be reached before |
| Refinement.SessionTells | ylisp/parser.c:253-262 | the same for the expressions of a session one after the other, each value of it |
| Refinement.StartGood | ylisp/mempool.c:283-299 | a session may start in any well-formed state without local variables |
| Refinement.MadeIs | ylisp/parser.c:336-484 | what is made of an expression that is read is the expression, in new cells |
| Refinement.EvalIs | ylisp/sfunc.c:633-704 | `yleval` without collections, which also keeps the association lists and the tables what the interpreter says |
| Refinement.CallIs | ylisp/sfunc.c:402-457 | macro symbols, special and native functions |
| Refinement.ListIs | ylisp/ylsfunc.h:292-306 | the arguments from left to right |
| Refinement.LambdaIs | ylisp/sfunc.c:600-630 | the lambda forms and the computed head |
| Refinement.EnterIs | ylisp/sfunc.c:460-479 | lambda |
| Refinement.EnterMacroIs | ylisp/sfunc.c:481-524 | mlambda |
| Refinement.LabelIs | ylisp/sfunc.c:527-547 | label |
| Refinement.MacroLabelIs | ylisp/sfunc.c:549-598 | flabel |
| Refinement.EachIs | ylbase/nfunc.c:48-54 | `progn` |
| Refinement.CondIs | ylbase/nfunc.c:61-88 | `f-cond` |
| Refinement.AndIs | ylbase/nfunc.c:90-97 | `f-and` |
| Refinement.OrIs | ylbase/nfunc.c:99-106 | `f-or` |
| Refinement.LetIs | ylbase/nfunc.c:137-165 | `f-let` |
| Refinement.CaseIs | ylbase/nfunc.c:168-207 | `f-case` |
| Refinement.WhileIs | ylbase/nfunc.c:210-219 | `f-while` |
| Refinement.StrictIs | ylisp/nfunc.c:67-190 | the functions on values and the assignments |
| Refinement.OneTree | ylisp/yldev.h:704-723 | in one state an address has one tree |
| Refinement.HeldCoherent | ylisp/sfunc.c:92-116 | `equal` holds of two values of one state exactly when they are the same without their addresses |
| Meaning.LookupIs | ylisp/sfunc.c:300-374 | variables in cells are looked up as the interpreter says, clones of macros included |
| Meaning.AssignIs | ylisp/sfunc.c:178-215 | overwriting the cell of a variable, or a table entry, is the assignment |
| Meaning.UnsetIs | ylisp/nfunc.c:156-170 | so is the removal from a table |
| Meaning.EqualIs | ylisp/sfunc.c:92-116 | comparing cells is comparing trees |
| Meaning.CloneIs | ylisp/sfunc.c:75-82 | a clone is the same tree in new cells |
| Meaning.BindAllIs | ylisp/ylsfunc.h:244-254 | pairing makes one variable for each parameter |
| Meaning.AppendIs | ylisp/ylsfunc.h:224-227 | appending puts them before the others |
| Meaning.QuoteAllIs | ylisp/sfunc.c:711-717 | quoting the arguments of `apply` |
| Expansion.ReplaceIs | ylisp/sfunc.c:247-292 | overwriting the pairs of the cloned body in place gives the tree with every parameter replaced, and nothing that existed before changes |
| Expansion.AttachIs | ylisp/sfunc.c:497-503 | so does overwriting its last cdr |
| Expansion.ExpandMacroIs | ylisp/sfunc.c:481-524 | a macro form expands to what the interpreter says |
| Laws.LocalLaw | ylisp/sfunc.c:334-342 | a symbol has the value of the innermost local variable of its name |
| Laws.GlobalLaw | ylisp/sfunc.c:344-374 | without one that of the thread's table, then of the global one, then a number, or it fails |
| Laws.QuoteLaw | ylisp/nfunc.c:44-60 | the argument as it stands |
| Laws.OneLaw | ylbase/nfunc.c:222-279 | car and cdr of a pair, and failure on an atom; `atom`, `null`, `eval` |
| Laws.TwoLaw | ylisp/nfunc.c:67-74 | `eq` compares addresses, `equal` trees; `cons` makes a new pair |
| Laws.EqualLaw | ylisp/sfunc.c:92-116 | `equal` compares values without their addresses |
| Laws.ListLaw | ylbase/nfunc.c:286-288 | `list` gives the list of the values |
| Laws.CondLaw | ylbase/nfunc.c:61-88 | the body of the first clause whose test is not nil, after the tests before it; nil without one |
| Laws.AndLaw | ylbase/nfunc.c:90-97 | nil as soon as an expression is nil, the later ones not evaluated; otherwise t |
| Laws.OrLaw | ylbase/nfunc.c:99-106 | t as soon as one is not nil; otherwise nil |
| Laws.PrognLaw | ylbase/nfunc.c:48-54 | the value of the last expression |
| Laws.WhileLaw | ylbase/nfunc.c:210-219 | rounds of the body as long as the test is not nil, then t |
| FormLaws.LambdaLaw | ylisp/sfunc.c:460-479 | the value of the body, every parameter bound to the value of its argument in a place of its own; failure unless there are as many of each |
| FormLaws.ParameterLaw | ylisp/sfunc.c:334-342 | in the body a parameter stands for the value of its argument |
| FormLaws.LabelLaw | ylisp/sfunc.c:527-547 | the body in the place of the form, with the name bound to the whole form |
| FormLaws.FlabelLaw | ylisp/sfunc.c:549-598 | the body with parameters and name bound, without the variables around it, the name being a macro |
| FormLaws.HeadLaw | ylisp/sfunc.c:600-630 | a form in the place of a function is evaluated first |
| FormLaws.MlambdaLaw | ylisp/sfunc.c:481-524 | the value of an instance of the body: every atom that is like a parameter becomes the argument of the first such one, every other atom stays, and what is put in is not looked at again |
| FormLaws.MlambdaJoins | ylisp/sfunc.c:497-503 | without parameters, the body with the arguments at its end; failure if the body is no list |
| FormLaws.MacroLaw | ylisp/sfunc.c:413-420 | a macro symbol in front of arguments stands for a copy of its value |
| FormLaws.MacroSymbolLaw | ylisp/sfunc.c:390-393 | and alone for a copy that is evaluated |
| FormLaws.LocalMacroLaw | ylisp/sfunc.c:334-342 | a local variable whose symbol is a macro does the same |
| FormLaws.SetLocalLaw | ylisp/sfunc.c:178-215 | `set` and its kin change the innermost variable of the name and nothing else |
| FormLaws.SetTableLaw | ylisp/sfunc.c:178-215 | without one the entry of the table, unless the name has 1024 bytes or more |
| FormLaws.SetNamelessLaw | ylisp/sfunc.c:178-215 | only a symbol with a name can be set |
| FormLaws.SetThenLookup | ylisp/nfunc.c:76-91 | after `set` the symbol has the value |
| FormLaws.SetThenLookupLocal | ylisp/nfunc.c:76-91 | so has the local variable |
| FormLaws.UnsetLaw | ylisp/nfunc.c:156-190 | t when the table has the symbol; `unset` takes it out and changes nothing else |
| FormLaws.LetLaw | ylbase/nfunc.c:137-165 | the lambda form with names and values in reverse and a `progn` as its body |
| FormLaws.CaseLaw | ylbase/nfunc.c:168-207 | the expressions of the first clause that has the key, by itself, in a list or as `otherwise`; nil without one |
| FormLaws.ApplyLaw | ylisp/sfunc.c:707-725 | the call of the function with its arguments quoted |
| FormLaws.ArityLaw | ylisp/nfunc.c:67-194 | a function fails with fewer or more arguments than it takes |
| FormLaws.SpecialArityLaw | ylisp/nfunc.c:44-64 | so do the special ones |
| FormLaws.NoFunctionLaw | ylisp/sfunc.c:402-457 | what is neither a symbol nor a form that starts with one is no function |
| FormLaws.StopLaw | ylisp/ylsfunc.h:292-306 | an argument that fails ends the call, and the later ones are not evaluated |
| BaseBlocks.Stack.constructor | ylisp/stack.h:48-66 | a new stack is empty, with room for sixteen items by default |
| BaseBlocks.Stack.Push | ylisp/stack.h:92-113 | appends, doubling the array when it is full |
| BaseBlocks.Stack.Pop | ylisp/stack.h:115-125 | takes the last item off, or refuses an empty stack |
| BaseBlocks.Stack.Remove | ylisp/mempool.c:108-127 | removes the topmost occurrence wherever it lies and nothing else; says whether there was one |
| BaseBlocks.Stack.ShiftDown | ylisp/mempool.c:116-118 | everything above the removed item moves down by one |
| BaseBlocks.RemoveTopAt | ylisp/mempool.c:112-121 | which item the removal takes |
| BaseBlocks.RemoveTopMultiset | ylisp/mempool.c:108-127 | as a multiset, one occurrence goes if there is one |
| BaseBlocks.ReleasedInAnyOrder | ylisp/yldev.h:519-580 | blocks protected above a stack and released in whatever order leave it exactly as it was |
| BaseBlocks.StackIsUnion | ylisp/mempool.c:98-127 | in every interleaving of threads that release only what they protect, the stack is, as a multiset, the union of what all of them hold, so nobody loses a protection |
| SafePoint.StepKeepsInv | ylisp/mthread.c:103-255 | every step of every thread keeps mutexes, thread list and SAFE bits in agreement with where the threads stand, and keeps every wait justified |
| SafePoint.ConsistentKept | ylisp/mthread.c:103-255 | mutual exclusion on both mutexes, and agreement of the list and the SAFE bits with where each thread stands |
| SafePoint.InformedKept | ylisp/mthread.c:128-129 | what the holder of the mutex has found out stays true until it lets go |
| SafePoint.WaitStaysJustified | ylisp/mempool.c:227-258 | no step of any thread leaves a wait without its reason |
| SafePoint.RunKeepsInv | ylisp/mthread.c:103-255 | so the invariant holds in every state of every run |
| SafePoint.WorldStopped | ylisp/mempool.c:242-258 | while a thread collects, every registered thread is between notify-safe and notify-unsafe with its SAFE bit set, none is evaluating, and no step of another thread changes the list, the bits or the pool |
| SafePoint.NoLostWakeup | ylisp/mempool.c:227-240 | whenever the mutex is free, a thread that waits unsignalled sees the pool over the trigger and some registered thread still evaluating |
| SafePoint.ListenerDecides | ylisp/mempool.c:242-258 | with `used * 100 >= trigger * size` the all-safe listener collects when the collector is enabled, and goes on to the broadcast without collecting when it is not; below it does neither |
| SafePoint.WaiterDecides | ylisp/mempool.c:227-240 | the thread-safe listener waits in exactly that case |
| SafePoint.TestDecides | ylisp/mthread.c:112-255 | a thread that has become safe, or has left, runs the all-safe listener exactly when every registered thread is safe |
| SafePoint.CollectionDecided | ylisp/mempool.c:242-258 | in every run, a thread that collects has decided to in an earlier state in which all were safe, the pool was filled to the trigger and the collector was enabled; it still is |
| SafePoint.DisabledReclaimsNothing | ylisp/mempool.c:246-252 | while the collector is disabled no step reclaims a block |
| SafePoint.FindsOverTrigger | ylisp/mempool.c:242-258 | when somebody waits, the all-safe listener finds the pool over the trigger and does not skip the broadcast |
| SafePoint.StaysOnTheWay | ylisp/mempool.c:242-258 | whatever any thread does, the collecting thread keeps the mutex and stays on its way to the broadcast until it has made it |
| SafePoint.LastOneBroadcasts | ylisp/mempool.c:242-258 | from the all-safe listener there is no way past the broadcast while somebody waits: in every later state of the run it has been made in between, or its thread still holds the mutex and is on its way to it |
| SafePoint.BroadcastWakesAll | ylisp/mempool.c:242-258 | after the broadcast nobody waits |
| SafePoint.SomebodyMoves | ylisp/mthread.c:216-255 | while a thread waits unsignalled, another thread that does not wait can take a step of the protocol, not just of its own evaluation: the threads never all wait |
| SafePoint.WokenBeforeAllSafe | ylisp/mthread.c:112-134 | between a state where a thread waits and a later one where all are safe and the mutex is free, that thread was woken |
| ReaderSteps.AutomatonReadsGrammar | ylisp/parser.c:111-128 | the steps of the automaton without its heap produce what the recursive-descent reader produces, for every text |
| ReaderSteps.StepKeeps | ylisp/parser.c:301-586 | one step, whether or not it handles its character, leaves unchanged what the reader would make of the rest |
| ReaderHeap.AppendLayout | ylisp/parser.c:474-485 | a new element is linked behind the innermost open level, and every level still denotes its elements |
| ReaderHeap.OpenLayout | ylisp/parser.c:336-351 | opening a list or a quote pushes the pair pointer and starts a new level |
| ReaderHeap.CloseLayout | ylisp/parser.c:379-387 | closing a level drops its sentinel and makes its list the newest element of the enclosing one |
| Parser.Automaton.constructor | ylisp/parser.c:268-280 | the initial state: the bottom state, one sentinel, nothing read |
| Parser.Automaton.AddSymChar | ylisp/parser.c:232-240 | appends to the symbol buffer and refuses the byte that would not leave room for the terminator |
| Parser.Automaton.NextChar | ylisp/parser.c:301-586 | each state's reaction to a character: next state, whether it was handled, escapes decoded (as ReaderLaws.StringLaw says), errors |
| Parser.DenotesEnter | ylisp/parser.c:336-351 | the assignments of list_enter and squote_enter open a level on the cells |
| Parser.Automaton.EnterLevel | ylisp/parser.c:336-351 | entering a list or quote |
| Parser.Automaton.EnterScan | ylisp/parser.c:440-525 | entering a symbol, a string or a comment, with an empty buffer for the first two |
| Parser.Automaton.LeaveSymbol | ylisp/parser.c:474-484 | a finished symbol becomes the next element, or goes to the evaluator |
| Parser.Automaton.LeaveLevel | ylisp/parser.c:379-387 | a finished list or quote becomes the next element of the level around it |
| Parser.Automaton.ComeBack | ylisp/parser.c:283-299 | back in the bottom state, the value is handed to the evaluator and the sentinel reset |
| Parser.Automaton.Return | ylisp/parser.c:637-644 | the state below is resumed with the value of the one that was left |
| Parser.Automaton.LeaveComment | ylisp/parser.c:544-548 | leaving a comment delivers nothing |
| Parser.Automaton.LeaveState | ylisp/parser.c:637-644 | leaving any state: its value is delivered and the state below resumed |
| Parser.Automaton.EnterState | ylisp/parser.c:645-667 | entering any state, an escape outside a symbol or string through the symbol state |
| Parser.Automaton.Advance | ylisp/parser.c:628-667 | one round of the driver loop is one abstract step |
| Parser.Automaton.Interpret | ylisp/parser.c:591-696 | for every non-empty stream the loop terminates although characters are read again; the expressions handed over, in order, and the result are those of the recursive-descent reader, which ReaderLaws describes by what is written |
| Parser.Automaton.Finish | ylisp/parser.c:678-695 | the bottom state is popped exactly when no list, quote or scan is open, and then the pair stack is empty |
| Parser.InterpretInternal | ylisp/interpret.c:51-62 | the same for every stream, the empty one included |
| ReaderLaws.WrittenReads | ylisp/parser.c:301-586 | any program written down as symbols, bare or in double quotes, with their escapes, lists, quote marks, blanks and comments reads as exactly its expressions |
| ReaderLaws.StringLaw | ylisp/parser.c:561-583 | any name without a NUL, a double quote, a backslash and a line feed in it written as two characters each, is read back from double quotes exactly when it has at most 4095 bytes; a longer one is an error |
| ReaderLaws.ItemReads | ylisp/parser.c:301-586 | every item is read as its value, and what follows it is left |
| ReaderLaws.GapReads | ylisp/parser.c:532-543 | blanks and comments are skipped |
| ReaderLaws.MarkLaw | ylisp/parser.c:336-387 | a quote mark before an item reads as `(quote item)` |
| ReaderLaws.UnmatchedLaw | ylisp/parser.c:301-586 | a bracket that closes nothing is an error, after the expressions before it |
| ReaderLaws.UnclosedLaw | ylisp/parser.c:678-695 | so is a list that is not closed |
| ReaderLaws.EscapeLaw | ylisp/parser.c:561-583 | so is any other escape |
| ReaderLaws.OpenStringLaw | ylisp/parser.c:678-695 | and a string that is not closed |
| PrintedText.DottedReadsAs | ylisp/lisp.c:521-547 | a dotted list is read back as a list whose last element and final symbol are one symbol with a dot between them |
| PrintedText.DottedPair | ylisp/lisp.c:521-547 | the text of a pair of two symbols, letter by letter, and what it reads as |
| PrintedText.ReadsBack | ylisp/lisp.c:476-573 | a proper-list tree of clean symbols is read back from its text, and nothing else is |
| Legibility.OnlyReadable | ylisp/lisp.c:476-573 | no other tree is read back from its text |
| Legibility.ReadsBackIff | ylisp/lisp.c:476-573 | the round trip holds exactly for trees of non-empty symbols of at most 4095 bytes without delimiters, backslashes or NULs, in proper and non-empty lists |
| Legibility.NilInList | ylisp/lisp.c:476-573 | an input that does not survive: `(NIL)` is read with a symbol in place of nil |
| Legibility.ProgramPays | ylisp/parser.c:591-696 | every value that is read is paid for by the characters it is read from |
| Printer.Printer.PrintElement | ylisp/lisp.c:476-562 | terminates on every graph, cyclic or shared, and restores the address map; for every finite unfolding the exact text, and a report exactly when it is cut; for an infinite one a report |
| Printer.Printer.PrintCar | ylisp/lisp.c:497-519 | the first half: the car, which stays in the map |
| Printer.Printer.PrintCdr | ylisp/lisp.c:521-547 | the second half: the cdr |
| Printer.Printer.Leave | ylisp/lisp.c:549-556 | what the two halves added to the map is taken out again |
| Printer.Printer.PrintChain | ylisp/lisp.c:564-603 | any graph is printed; a cyclic one is reported; an acyclic one is reported exactly when some pair is the car of another one and is met again in its cdr, and printed exactly otherwise |
| Printer.UncutShown | ylisp/lisp.c:476-562 | without a report, the text is the plain text of the tree |
| Printer.UnsharedNotCut | ylisp/lisp.c:498-513 | no cycle is reported for a tree without sharing |
| Printer.ReportedIff | ylisp/lisp.c:498-540 | for an acyclic graph a cycle is reported exactly when the car of some pair is met again in the cdr of that pair |
| Printer.CutIff | ylisp/lisp.c:498-540 | below a pair with other pairs in the map: exactly then, or when one of those is met |
| Printer.UnfoldsOnce | ylisp/lisp.c:476-562 | a graph has at most one finite unfolding below a pair |
| Printer.FalseCycle | ylisp/lisp.c:528-540 | a finite, acyclic graph for which a cycle is reported, because its car is met again in its cdr |
| Printer.PrintedReadsBack | ylisp/lisp.c:564-573 | what is printed of a tree of symbols reads back as that tree exactly when it is readable |
| Keys.NibblesOrder | ylisp/trie.c:288-341 | the order of nibble paths is the dictionary order of unsigned bytes |
| Keys.NibblesPrefix | ylisp/trie.c:223-246 | prefixes of keys are prefixes of paths |
| Keys.ListingSorted | ylisp/trie.c:310-339 | the reference listing is strictly increasing |
| Keys.ListingComplete | ylisp/trie.c:288-341 | the reference listing omits no path |
| Trie.Trie.constructor | ylisp/trie.c:412-419 | the empty map |
| Trie.Trie.Find | ylisp/trie.c:222-246 | the node at the end of the key's path, or none |
| Trie.Trie.FindOrMake | ylisp/trie.c:222-246 | the missing nodes are made, and only the last may be dead |
| Trie.Trie.Descend | ylisp/trie.c:222-246 | one nibble of the creating walk: the child is followed or made, and nothing stored changes |
| Trie.Trie.Graft | ylisp/trie.c:81-94 | a fresh node becomes the missing child; every other link stays |
| Trie.Trie.Get | ylisp/trie.c:343-358 | the map's value; nothing for the empty key |
| Trie.Trie.Insert | ylisp/trie.c:387-410 | the map is updated; -1 for an empty key, an absent value or a key of 1024 bytes or more, 1 for an overwrite, 0 otherwise; canonical form is kept |
| Trie.Trie.Put | ylisp/trie.c:387-410 | the value of one key is set; every other key keeps its own |
| Trie.Trie.PruneChild | ylisp/trie.c:112-130 | a child goes exactly when it has neither value nor children |
| Trie.Trie.PruneByte | ylisp/trie.c:135-153 | the two nodes of a byte go as far as they are dead |
| Trie.Trie.Clear | ylisp/trie.c:180-191 | the value of one key goes; the links stay |
| Trie.Trie.DeleteKey | ylisp/trie.c:161-192 | the key goes; every node that is dead afterwards goes, and no other |
| Trie.Trie.Delete | ylisp/trie.c:439-447 | 0 and the key is gone, or -1 and nothing changes; canonical form is kept |
| Trie.Trie.NodesArePrefixes | ylisp/trie.c:40-79 | the nodes are exactly the prefixes of the stored keys |
| Trie.Trie.EqualNodes | ylisp/trie.c:248-267 | structural comparison of two subtries |
| Trie.Trie.Equal | ylisp/trie.c:453-457 | 1 exactly when the two maps have the same keys and matching values |
| Trie.Trie.MatchingIsEqual | ylisp/trie.c:248-267 | because of the canonical form, equal structure and equal maps are the same |
| Trie.Trie.CountChildren | ylisp/trie.c:502-509 | how many children a node has, and the last one |
| Trie.Trie.AutoComplete | ylisp/trie.c:481-554 | fails iff the prefix is not empty and no stored key has it; violates the assertion iff the prefix and the trie are empty; leaves the buffer iff its size is 0 and a key has the prefix; otherwise the buffer holds the longest common continuation, with Leaf for a single key and Branch for several, or -1 when it does not fit |
| Trie.CompleteNothing | ylisp/trie.c:512-513 | the input that violates the assertion: the empty prefix in a new trie |
| Trie.Trie.EmptyRoot | ylisp/trie.c:512-513 | the root of an empty trie has neither a value nor a child |
| Trie.Trie.DeadEnd | ylisp/trie.c:512-514 | the assertion holds at a node without children iff some key has the prefix, and that key is then the only one |
| Trie.Trie.Arrived | ylisp/trie.c:492-495 | a node lies at the prefix iff it is empty or some key has it |
| Trie.Trie.PrefixHasKey | ylisp/trie.c:492-495 | a node lies at the end of a prefix exactly when a stored key has it |
| Trie.Trie.ExtendCommon | ylisp/trie.c:517-544 | a byte with a single way on belongs to every key with the prefix |
| Trie.Trie.ForkBranches | ylisp/trie.c:509-532 | two ways on, at either nibble, end the common continuation |
| Trie.Trie.DeadEndIsKey | ylisp/trie.c:512-516 | a node without children is the only key with the prefix |
| Walk.WalkNode | ylisp/trie.c:287-341 | the callback sees the entries below the node in the reference order, each rebuilt correctly in the shared nibble buffer, until it refuses; the buffer never runs out |
| Walk.FromPrefix | ylisp/trie.c:360-376 | the walk from a prefix; -1 iff no node lies there |
| Walk.SuffixesExact | ylisp/trie.c:287-341 | what is reported are exactly the stored keys with the prefix, minus the prefix, with their values |
| Walk.SuffixesOrdered | ylisp/trie.c:287-341 | in dictionary order of unsigned bytes, hence once each |
| SymbolTable.SuffixCount | ylisp/symlookup.c:211-219 | one report for each symbol with the prefix |
| SymbolTable.Counted | ylisp/symlookup.c:211-219 | the counting callback never stops, counts every report and keeps the maximum |
| SymbolTable.Copied | ylisp/symlookup.c:246-256 | the copying callback fills the buffers in order until they are used up, and a write leaves its buffer exactly when a name that is copied does not fit with its terminator |
| SymbolTable.NrCandidates | ylisp/symlookup.c:211-237 | the exact number of candidates, and the length of the longest continuation |
| SymbolTable.Candidates | ylisp/symlookup.c:239-275 | the first candidates in order, each with its terminator in a buffer of its own, as many as there are buffers for; -1 iff nothing lies at the prefix; a write leaves its buffer iff one of the names that are copied has as many bytes as the buffer or more |
| SymbolTable.EscapesTwoBytes | ylisp/symlookup.c:246-256 | an input for which it does |
| SymbolTable.ListAll | yld/cmd.c:55-74 | the way the callers use it: with as many buffers as there are candidates, one byte longer than the longest, every candidate is listed and no write leaves its buffer |
| SymbolTable.NamesFit | yljfe/main.c:197-212 | no candidate is longer than the maximum that was counted |
| HashMap.HashMap.constructor | ylext/hash.c:151-164 | the empty map with sixteen chains |
| HashMap.HashMap.Resize | ylext/hash.c:74-111 | the number of chains changes within its limits, every entry moves to the chain its current bits select, and the map stays |
| HashMap.HashMap.Link | ylext/hash.c:210-211 | an entry joins the chain its hash selects, and the table holds one key more |
| HashMap.HashMap.Unlink | ylext/hash.c:222-224 | an entry leaves its chain, and the table holds one key less |
| HashMap.HashMap.Expand | ylext/hash.c:206-208 | the table grows when it is full, so that one more entry keeps the bounds |
| HashMap.HashMap.MoveChain | ylext/hash.c:100-107 | the entries of one old chain are moved, each once |
| HashMap.HashMap.Reassign | ylext/hash.c:98-107 | after all chains, the new table holds the whole map |
| HashMap.HashMap.FindEntry | ylext/hash.c:113-125 | finds the entry of a stored key, and nothing for another |
| HashMap.HashMap.Get | ylext/hash.c:232-237 | the map's value |
| HashMap.HashMap.Add | ylext/hash.c:188-215 | the map is updated for any key, with 1 for an overwrite; the load bounds hold after any shrinking and growing; the assertion is violated iff a stored empty key is overwritten |
| HashMap.HashMap.Del | ylext/hash.c:217-230 | the key is gone, or -1; the load bounds hold after shrinking; the assertion is violated iff a stored empty key is deleted |
| HashMap.AddEmptyTwice | ylext/hash.c:142-149 | an input that violates the assertion on the key |
| HashMap.HashMap.ShrunkLoaded | ylext/hash.c:225-226 | halving the number of chains below a quarter load keeps both bounds |
| HashMap.HashMap.GrownLoaded | ylext/hash.c:207-212 | doubling it above full load keeps both bounds |
| HashMap.HashMap.WalkAll | ylext/hash.c:239-254 | the callback sees the listed entries in order until it refuses |
| HashMap.HashMap.ListedExact | ylext/hash.c:239-254 | the list has every entry of the map, and no key twice |
| HashMap.SlotBound | ylext/hash.c:57-60 | the top bits of a hash value select an existing chain |
| Macro.Heap.ListClone | ylisp/sfunc.c:70-82 | a copy of the term from fresh, unshared pairs over the same atoms |
| Macro.Heap.ListFind | ylisp/sfunc.c:132-142 | the pair of the first key that is the atom's cell or an atom that `eq` accepts; nothing exactly when there is none |
| Macro.Heap.Replace | ylisp/sfunc.c:247-292 | the term is overwritten in place by its substitution, and no pair outside it is written; -1 exactly for an atom |
| Macro.Heap.SublisCopy | ylisp/ylsfunc.h:282-287 | the pure substitution builds a term equal to the one Replace produces |
| Macro.Heap.Substitute | ylisp/ylsfunc.h:268-276 | the partner of the first key that is the atom's cell or an atom that `eq` accepts, or the atom itself |
| Macro.Sub2IsFirstMatch | ylisp/ylsfunc.h:257-276 | the substitution of one atom, written out by addresses and `eq` |
| Macro.SublisInstance | ylisp/ylsfunc.h:282-287 | a substituted term is an instance: each leaf becomes the argument of the first parameter that is its cell or an atom `eq` accepts, or stays |
| Macro.InstanceLeaf | ylisp/sfunc.c:93-116 | the leaf at the end of any path, when it and the parameter are different cells whose atoms `eq` accepts |
| Macro.Heap.PairUp | ylisp/ylsfunc.h:244-254 | pairs of parameters and arguments, or failure unless both lists end at the same length |
| Macro.Heap.CopySpine | ylisp/ylsfunc.h:224-227 | appending nothing copies the list |
| Macro.Heap.AppendArgs | ylisp/sfunc.c:497-503 | the arguments replace the final nil of the copied body, which must be a proper list |
| Macro.Heap.Expand | ylisp/sfunc.c:481-524 | the expression to evaluate is the simultaneous first-match substitution of the arguments into the body, inserted arguments not looked at again, each leaf by addresses and `eq` on atoms (Macro.Instance); or, without parameters, the body with the arguments appended; it fails exactly on unequal lists or an improper body; no pair that existed before is changed |

## Left out

- Transparency.CollectionIsTransparent: covers quote, apply, eval, progn, f-cond, f-and,
  f-or, f-let, f-case, f-while, lambda, mlambda, label, flabel, the form with a computed
  head, macro symbols, set, tset, mset, tmset, unset, tunset, `set?`, `tset?` and the strict
  natives car, cdr, cons, atom, null, eq, equal and list; other natives are not modelled.
  `setcar` and `setcdr`, which overwrite any pair, are outside it.
- Refinement.EvaluatesTo: the interpreter counts allocations, since `eq` compares
  addresses, and its bound on nesting is at least that of the evaluator; a value is a
  finite tree, so expressions and values that contain themselves are outside it.
- Refinement.HeldCoherent: no cell of the heap holds a second nil; the code has only one.
- ReaderLaws.WrittenReads: a string may also hold a line feed as it stands; Escape always
  writes it as two characters. What follows a NUL is not read.
- Transparency.EvalAgree: the evaluator is modelled on values, with the heap passed along
  and a bound on the depth of recursion; the bound only decides when both runs stop. The
  unspecified order of the two argument expressions of `ylappend(ylpair(...), a)` is taken
  as arguments first.
- The evaluator's heap does not run out, and a freed cell is not reused under the same
  name, so that a stale read shows; PooledHeap relates it to the pool with reuse and
  exhaustion. An evaluation that ends in a failure has no heap to relate. The subtype of a
  symbol, which says whether it is a macro, is kept beside the heap.
- PooledHeap.Gather: the references of the base blocks and the symbol tables are one set;
  SymbolRoots.CollectAll finds them in the tables.
- SymbolRoots.CollectAll: the tables of symbols are walked before the base blocks are
  marked; the order does not matter, since marking does not change a table.
- Error exits (`pthread_exit` inside `ylinterp_fail`) are results; balance is stated for
  normal returns.
- SafePoint.WorldStopped: killing and cancelling threads, and the process resources
  closed then, are not part of this model; nested calls of notify-safe do not occur.
- SafePoint.FindsOverTrigger: the usage ratio is computed on unbounded numbers; the code
  multiplies an `int` by 100, which overflows from 21474837 used blocks on.
- SafePoint.NoLostWakeup: the short critical sections of the pool mutex are single steps;
  only a collection holds it over several.
- Parser.Automaton.Interpret: `yleval` is taken to return; the line counter and the
  messages are not modelled; the atom of a symbol is made before its pair.
- Walk.WalkNode and Walk.FromPrefix: a callback is a function on its own state; it does
  not change the trie.
- SymbolTable.Candidates: a buffer is a value, and a write that leaves it is recorded; what
  lies beyond it is not part of this model.
- Trie.Trie.AutoComplete: with a buffer of size 0 it stops at the first write outside.
- Symbol descriptions and the insertion into the symbol table, which adds nothing to
  Trie.Trie.Insert but the keeping of a description.
- `yltrie_copy`, `yltrie_clone` and `yltrie_destroy`: recursion over the nodes without a
  new difficulty.
- HashMap.HashMap.Resize: at 32 bits the code's `1<<32` is undefined; the model takes the
  mathematical value, so nothing is claimed about the code at that size.
- HashMap.HashMap.constructor: the hash is an arbitrary function from keys to 32 bits; the
  CRC table is not modelled. The callback that frees values is left out.
- Macro.Heap.Expand: the body must be a finite term and the parameter and argument lists
  finite chains, since the code does not return otherwise.
- Printer.Printer.PrintElement: buffer growth and running out of memory are not modelled; the
  address map is a set, which Trie refines. How an atom is turned into text is a field of
  the atom.
- BaseBlocks.Stack.Push: running out of memory is not modelled. BaseBlocks.Stack.Pop: the
  code asserts that the stack is not empty.
- Collector.Pool.Release: a clean callback affects only its own atom; atoms for processes,
  whose callback reaches other blocks, are excluded.
- The CRC, floating-point arithmetic and `strtod`: numerals are recognized by a given
  function and numbers are opaque atoms.
- Strings, arrays, binaries, regular expressions, files, sockets, processes, plug-ins, the
  debugger and the user interfaces: foreign calls or no new difficulty.
