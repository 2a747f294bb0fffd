# Verification of the Sol front end

Sol is a compiler front end written in C17. This project models its most intricate logic in
Dafny and proves what that logic is for: that effect rows tell the truth about every
execution, that the scheduled inference computes exactly the least rows, that a formatter
run never loses a file, and a dozen results of the same kind about the smaller cores. Each
operation that works by updating state in the source is a method or a class here, proved
against a specification; what the specification means is then proved in lemmas.

`dafny verify dfyconfig.toml` checks everything. All files are independent of any library.

## How the parts fit together

**Effects** (`src/effectcheck.c`). `EffectProgram` holds the checked program, reduced to what
matters for effects: bodies are trees of calls, panics and `handle` blocks; rows are
sequences of atoms without repetitions. Its equations say what each row must contain.

* `CallGraph`, `Components`, `ComponentGroups`: the linked edge arrays, the iterative
  two-pass component search (numbers are equal exactly for mutually reachable definitions,
  and no edge leads to a smaller number), and the counting sort.
* `EffectUniverse`: the finite universe of atoms, and naive global iteration, which reaches
  the least solution of the equations.
* `EffectRows`, `EffectInference`, `EffectSchedule`: the walk over bodies that grows rows in
  place, the do-while loop of one component, and the pass over components from the last to
  the first. `EffectSchedule.InferFunctions` yields exactly the least solution.
* `EffectSemantics`: what a program does when it runs, independently of rows. Activations
  hold capability tokens, host operations and panics are events, and a handler intercepts
  one name on one token. A run is a finite tree, possibly cut off anywhere.
* `EffectAcceptance`, `EffectCheck`: what it means that checking reports nothing, and the
  checker as a whole, whose verdict is exactly that.
* `EffectSoundness`: in an accepted program, every event of every run of a callable is
  covered by its row, or comes from a callback bound to its effect parameter.
* `EffectTightness`: the other direction. What inference puts into a row on a capability some run
  performs, so handlers mask all they should and no substitution adds too much; and what the
  checker rejects for its authority could leave every row.
* `EffectOpenRows`: the one gap. Coercion of a definition to an *open* function type is not
  compared with that type (`src/effectcheck.c:4583`), so soundness needs the condition
  `EffectAcceptance.OpenFlowsCovered`, which a caller can test on the final rows: what flows
  to an open type stays within its fixed effects or the row of the definition that owns its
  effect parameter. The module shows how such a flow is executed wherever its type is called,
  that the condition is exact where open flows are used, and a program that is accepted, has
  an empty row, and panics. `EffectExecuted` computes from the program alone, without frames,
  tokens, handlers or runs, what each callable performs without a token; for every accepted
  program this decides whether all runs stay within their rows.
* `EffectCalls`: the recorded instantiations of polymorphic calls and their replay.
* `EffectSpans`, `Paths`, `Lexer`: names are spans of source text. The lexer tiles every
  text; the path reader normalises spans made of tokens to the text of their names and dots;
  comparing spans is comparing normal forms, which makes row append a set insertion.
* `Provenance`, `TupleOrigins`, `ProvenanceCheck`, `ProvenanceOrigins`, `ExpressionOwners`: the
  interned sets of roots and their unions, what the loop over tuple elements makes of them, the
  three-colour search with its fixed stack, what the origin of each kind of expression and local
  is recomputed from and why only one labelling can be accepted, and the forest check before it.
  `ProvenanceMeaning` says, without labels, tables and unions, whose authority a value may carry,
  and when accepted origins are exactly that.

**Contracts** (`src/contract.c`). `ContractPurity` combines the purity test with soundness:
an accepted predicate performs nothing in any run. `ContractSnapshots` shows that lowering
fills the snapshot arena the way `src/inspection.c` later demands.

**The rest.** `Transaction` (`src/main.c`) is the staged multi-file rewrite under arbitrary
failures of system calls. `LexicalScope` and `Resolver` (`src/hir.c`) relate the binding
stack with undo marks to a resolver that passes an environment, and `ScopePositions` relates that
one to positions in the tree: a path means the innermost declaration around it. `Formatter`
(`src/formatter.c`) is the renderer and its self-check; `Layout` says how its lines are indented
and spaced; `Relexing` proves what the lexer makes
of the renderer's output, and so when the self-check can fail at all, and `CleanRendering` does
so for sources without lexical errors. `MirValidation`
(`src/mir_concrete_validate.c`) is the validator with an exact budget. `EffectsReport`
(`src/effects.c`) is the worklist and the ordering of the report. `Encoders`
(`src/inspection.c`) are the JSON string and base64 writers.

Conventions: an integer that the source keeps in `size_t` is a `nat` unless its limit
matters (`MirValidation.SIZE_MAX`, `ProvenanceCheck` with its fixed array); `SOL_AST_NONE`
is `None` (`Options`); a source byte is one `char` in `Lexer`, and a number below 256 in `Encoders`.

## Where code and expectation differ

* Open callback types: see `EffectOpenRows` above. The gap reaches contracts as well:
  `ContractPurity.ImpurePredicate` is a predicate that passes the purity test and panics.
* The replay of recorded calls skips missing entries and never asks whether the call at hand
  needs one (`src/contract.c:876-881`), and it rejects an effect argument that is not
  determined (`src/effectcheck.c:1163-1171`). `EffectCalls.ReplayExact` states when acceptance
  means that the table is the recorded one, `EffectCalls.EmptyTableAccepted` that the table
  without entries is accepted for every program.
* Inference iterates over the row of the callee while it appends to the row of the caller.
  On direct self-recursion both are the same row (`src/effectcheck.c:1235-1252`, 1291), and an
  append may move the array that is being read (`src/effectcheck.c:365`). The model reads the
  callee's row first, which is what the loop is meant to do.
* Joins of origins depend on the order of branches when an intermediate union is not
  interned. `Provenance.JoinOrder` states exactly when they do not, `Provenance.OrderMatters`
  gives a table and two orders with different results.
* The origin of a tuple is meant to be the union of its elements' origins, but a union that is
  not interned makes the next element start afresh (`src/effectcheck.c:2702-2720`), where a join
  fails. `TupleOrigins.TupleForgets` has three elements of which only the last counts;
  `TupleOrigins.TupleIsUnion` says what is computed, `TupleOrigins.TupleCovers` exactly when it is
  the union, and `TupleOrigins.TupleOfInterned` that it is if every union on the way is interned.
  In an accepted arena the value of such a tuple carries authority that its origin does not name
  (`ProvenanceMeaning.TupleLosesAuthority`); this is the only way in which accepted origins go
  wrong (`ProvenanceMeaning.OriginsMean`).
* In the provenance search a node of an arena whose spans nest and whose locals are declared
  before they are named has at most two live stack entries: `ProvenanceOrigins.TwoLiveEntries`.
  Where spans do not nest, the dependencies may have a cycle, and a node has three entries
  exactly when the entry on top is about to be rejected as one: `ProvenanceCheck.LiveEntries`,
  with a forest that has such a state in `ProvenanceCheck.ThreeLive`. The bound on the whole
  stack holds in every state: `ProvenanceCheck.StackBound`.
* The provenance search does not push what the origin of a call, of a projection or of a
  wrapper record is read from, so it alone does not make origins determined:
  `ProvenanceOrigins.SelfFedUndetermined` has `let l = f(l)` accepted with two labellings. The
  test that locals are declared before they are named (`src/effectcheck.c:2842-2883`) does:
  `ProvenanceOrigins.OriginsDetermined`.
* An expression that no declaration leads to is accepted or not depending on its index:
  `ExpressionOwners.Construct` states which.
* Rendering may glue tokens: a minus sign and an angle bracket that is no comparison are written
  without a space and read back as an arrow (`Relexing.TokensGlue`, with a tree made up for the
  purpose). `Relexing.RenderingKeepsTokens` says when this happens. For sources without lexical
  errors it is exactly where the bracket of a type stands next to `-` or `=` on one line
  (`CleanRendering.CleanRenderingKeepsTokens`), and the self-check catches it.
* The last loop over demands in `src/mir_concrete_validate.c:149-154` can never reject a
  program: `MirValidation.PigeonholeResolves`.

## Model

| member | source | states |
|---|---|---|
| `CallGraphs.CallGraph.AddEdge` | src/effectcheck.c:816-849 | an edge joins the set of edges and both linked lists stay threaded: each link names the latest earlier edge with the same source (target) |
| `Components.SearchFrom` | src/effectcheck.c:4408-4433 | the iterative search from one root keeps the finishing order and settles everything reachable; its stack, with one cursor per node, never exceeds the node count |
| `Components.FinishOrder` | src/effectcheck.c:4408-4433 | every node is listed once, and some member of each node's component is listed after everything the node reaches |
| `Components.Collect` | src/effectcheck.c:4436-4455 | the backward search from an unnumbered root gives the new number only to nodes that reach the root, and leaves no unnumbered predecessor behind |
| `Components.CollectedMutual` | src/effectcheck.c:4436-4455 | with roots taken in reverse finishing order, every node so numbered is also reached by the root |
| `Components.FindComponents` | src/effectcheck.c:4380-4463 | two definitions get the same number if and only if each reaches the other, and every edge leads to the same or a larger number, for every graph |
| `ComponentGroups.Group` | src/effectcheck.c:4490-4500 | the counting sort yields a permutation of the definitions, grouped by component, with offsets that delimit each group |
| `EffectSchedule.BuildGraph` | src/effectcheck.c:916-947 | the graph has an edge for exactly the rows that some definition's equation mentions, callback arguments included |
| `EffectRows.InsertAllIsUnion` | src/effectcheck.c:349-373 | inserting atoms one by one is set union and never introduces a repetition |
| `EffectRows.InferCallRow` | src/effectcheck.c:949-1043 | the effect argument and the row of a polymorphic call, in the order the source lists them, and whether the argument is determined |
| `EffectRows.ArgumentIsLeast` | src/effectcheck.c:949-1043 | the effect argument is the least that covers, with the fixed effects of each callback type, what the callback may do |
| `EffectRows.RequiredRow` | src/effectcheck.c:1235-1252 | the atoms a call demands are exactly those of the equation |
| `EffectProgram.ContributesMonotone` | src/effectcheck.c:1198-1341 | what a body contributes grows with the rows it reads and depends on no other row |
| `EffectInference.Checker.InferCall` | src/effectcheck.c:1198-1341 | one call in inference mode adds every unmasked instance, adds nothing that some solution lacks, and is flagged if and only if an authority is unknown or a handler encloses an unresolved row; what masks is said by `HandledMeans` |
| `EffectInference.Checker.Walk` | src/effectcheck.c:1381-1541 | a walk over a body only grows the row of its definition and keeps it below every solution; if it adds nothing the row covers the body |
| `EffectSchedule.FixComponent` | src/effectcheck.c:4510-4531 | the loop of one component terminates, changes only its rows, and leaves every member's equation satisfied |
| `EffectSchedule.FinishedStays` | src/effectcheck.c:4510-4531 | a finished component is not invalidated by the components handled after it |
| `EffectSchedule.InferFunctions` | src/effectcheck.c:4465-4535 | the scheduled inference yields the least family of rows closed under all equations, and its diagnostics are exactly those due under these rows |
| `EffectUniverse.NaiveReachesLeast` | src/effectcheck.c:4465-4535 | naive global iteration over the finite universe of atoms reaches the same least family: the reference for the scheduled inference |
| `EffectCheck.Admits` | src/effectcheck.c:1305-1325 | the search of the caller's row finds an atom if and only if the row admits it, Self standing for the private source inside a wrapper |
| `EffectCheck.ValidateSite` | src/effectcheck.c:1198-1341 | one call in validation mode reports nothing if and only if every required atom is known and each of its instances is masked or admitted |
| `EffectCheck.BodyOkMeans` | src/effectcheck.c:1381-1541 | validation of a body reports nothing if and only if no site is diagnosed and all it contributes is admitted |
| `EffectCheck.ValidateCoercions` | src/effectcheck.c:4537-4596 | coercions are accepted if and only if the actual row is authority-free and, for closed types only, within the expected effects |
| `EffectCheck.Infer` | src/effectcheck.c:4859-4866 | graph, components and inference composed: the least rows, for every well-formed program |
| `EffectCheck.Check` | src/effectcheck.c:4846-4904 | the whole checker: least rows, a table that the replay accepts, and a clean verdict exactly on the programs that meet every rule; these are sound if what flows to open types stays within their fixed effects or the row of the owner of the effect parameter |
| `EffectSoundness.InstanceDenotes` | src/effectcheck.c:662-722 | authority substitution is right: the event an atom of the callee stands for is the event one of its instances stands for in the caller |
| `EffectSoundness.CallSound` | src/effectcheck.c:1198-1341 | an event in order for the callee is in order for the caller or intercepted by an enclosing handler, for every kind of call |
| `EffectSoundness.ExecutionSound` | src/effectcheck.c:1512-1531 | every event of every run of a part of an accepted body is covered by the row or masked by the handlers around the part |
| `EffectSoundness.EffectSoundness` | src/effectcheck.c:4888-4904 | the main theorem: no run of any callable performs an event outside its row, up to what bound callbacks add |
| `EffectSoundness.HandledMeans` | src/effectcheck.c:375-388 | handlers mask an atom on a parameter, in the checker, if and only if one of them, innermost or not, intercepts its event in every activation |
| `EffectTightness.RowsTight` | src/effectcheck.c:4465-4535 | where bodies belong to inferred definitions and no call passes one capability for two parameters, every effect on a parameter in a least row is performed by some run on the token of that parameter |
| `EffectTightness.AllowedMeans` | src/effectcheck.c:1305-1325 | a row admits an atom if and only if it covers what the atom stands for in every activation, Self and the private source being one in a wrapper |
| `EffectTightness.UntracedUncovered` | src/effectcheck.c:662-722 | a callee with an authority that the caller cannot trace may perform an event that no row of the caller covers |
| `EffectOpenRows.FlowIsExecuted` | src/effectcheck.c:4583-4592 | whatever a function, an operation or a chain of coercions brings to a type is executed by a call at that type anywhere in a body, handler bodies included, whether or not any callback is bound |
| `EffectOpenRows.OpenFlowLeaks` | src/effectcheck.c:4583-4592 | a flow that can perform an effect outside the row of the owner, who calls its type, gives the owner an uncovered run |
| `EffectOpenRows.OpenFlowsExact` | src/effectcheck.c:4583-4592 | in an accepted program whose open flows are used, the condition on open flows holds if and only if no run without bound callbacks leaves its row |
| `EffectOpenRows.HostFlowsExact` | src/effectcheck.c:4583-4592 | if open flows come from callables without a body into types their owner calls, the condition on the final rows holds if and only if every run stays within its row |
| `EffectExecuted.PerformedExact` | src/effectcheck.c:4583-4592 | for every accepted program, all runs without bound callbacks stay within their rows if and only if the effects computed from bodies, flows and callback arguments alone lie in the rows |
| `EffectExecuted.HeldCovered` | src/effectcheck.c:4555-4572 | effects on capabilities are covered by the row in every run of an accepted program, whatever flows to open types |
| `EffectExecuted.OpenFlowsEnough` | src/effectcheck.c:4583-4592 | if open flows stay within the fixed effects of their types or the row of the owner, so does everything that is computed as performed |
| `EffectOpenRows.LeakyAccepted` | src/effectcheck.c:4583-4592 | a program whose open flow exceeds the fixed effects of its type is accepted, and its least rows are the declared ones |
| `EffectOpenRows.LeakyPanics` | src/effectcheck.c:4583-4592 | and a definition of it with an empty row panics |
| `EffectCalls.RecordCalls` | src/effectcheck.c:1045-1121 | recorded slices tile the argument and row arenas in expression order; the pass is clean exactly if every effect argument is determined and authority-free |
| `EffectCalls.ValidateCalls` | src/contract.c:871-943 | the replay accepts a table if and only if every entry that is present is the recomputed one of a polymorphic call with a determined argument, and the slices of the present entries tile both arenas; missing entries pass |
| `EffectCalls.ReplayExact` | src/contract.c:871-943 | a recorded table is accepted if and only if every polymorphic call is determined, and an accepted table is the recorded one if and only if every polymorphic call has an entry |
| `EffectCalls.RecordedInOrder` | src/effectcheck.c:1045-1121 | what recording leaves behind when it reports nothing passes the replay |
| `EffectCalls.EmptyTableAccepted` | src/contract.c:876-881 | the table without entries is accepted for every program |
| `EffectCalls.InstantiationShape` | src/effectcheck.c:1123-1196 | what is recomputed has authority-free arguments and a row without repetitions, as the replay demands |
| `ContractPurity.PureCallDemandsNothing` | src/contract.c:1060-1105 | on a recorded table the purity test holds of a call if and only if the call demands nothing and leaves no row open |
| `ContractPurity.PureCallReplayed` | src/contract.c:1060-1105 | on any table that the replay accepts, a call that passes the purity test demands nothing and leaves no row open |
| `ContractPurity.PredicatesArePure` | src/contract.c:1264-1275 | an accepted contract predicate performs no event in any of its runs, in any activation of its owner |
| `ContractPurity.ImpurePredicate` | src/contract.c:1060-1105 | without the condition on open flows a predicate that calls a polymorphic definition with a pure callback passes the test and panics |
| `EffectSpans.AtomEqual` | src/effectcheck.c:328-347 | comparing atoms by kinds and spans decides equality of what they stand for |
| `EffectSpans.AppendAtom` | src/effectcheck.c:349-373 | appending to a row of spans is insertion into the row it stands for |
| `Paths.NextByte` | src/hir.c:89-129 | the reader yields the normal form byte by byte and signals its end, looking at nothing beyond the span |
| `Paths.SpanEqual` | src/effectcheck.c:191-200 | two spans compare equal if and only if their normal forms are equal |
| `Paths.JoinEqual` | src/hir.c:146-163 | a path equals module and declaration joined if and only if its normal form is theirs with a dot between |
| `Paths.ModuleEqual` | src/hir.c:166-184 | a path lies directly in a module if and only if its normal form is the module's, a dot and a dot-free name |
| `Paths.FinalComponent` | src/hir.c:186-194 | the final component holds the part of the normal form after the last dot |
| `Paths.HashPath` | src/hir.c:214-225 | the identity hash depends on the normal form alone |
| `Paths.LexedSpan` | src/lexer.c:222-404 | on a span of consecutive tokens of a path the normal form is the text of its names and dots, nested comments included |
| `Paths.CommentCut` | src/hir.c:106-124 | a nested comment that ends within a span is read the same with the span's end as limit |
| `Lexer.Lex` | src/lexer.c:222-404 | the tokens of every byte string lie end to end, are not empty, and end with the end token at its length |
| `Lexer.Lossless` | src/lexer.c:222-404 | the texts of the tokens concatenate to the source |
| `Lexer.KindDecided` | src/lexer.c:222-404 | the first one or two characters of a token decide its kind, for every kind |
| `Lexer.TextDecided` | src/lexer.c:222-404 | words are keywords by their text, and symbols are as long as they can be |
| `Lexer.SkipComment` | src/lexer.c:172-208 | a nested block comment ends after its matching close, or at the end of the text; which of the two is reported |
| `Lexer.SkipQuoted` | src/lexer.c:126-170 | a string literal ends after its closing quote, or before a line break or at the end of the text; which of the two is reported |
| `Provenance.EqualsMerge` | src/effectcheck.c:2550-2571 | the two-cursor comparison accepts exactly the merge of two sorted sets |
| `Provenance.MergeIsUnion` | src/effectcheck.c:2550-2571 | the merge of sorted sets is sorted and has the roots of both |
| `Provenance.Union` | src/effectcheck.c:2531-2574 | on a canonical table the union of two sets is the one identifier with exactly their roots, or none if it is not interned |
| `Provenance.UniqueId` | src/effectcheck.c:3636-3660 | in a canonical table equal sets have equal identifiers |
| `Provenance.Join` | src/effectcheck.c:2590-2654 | a join exists if and only if no branch is unusable, some branch has a value, and every union on the way is interned; it is then the union of all branches |
| `Provenance.JoinOrder` | src/effectcheck.c:2590-2654 | two orders of the same branches give the same join if and only if a branch is unusable, none has a value, or the unions on both ways are interned or on neither |
| `Provenance.OrderMatters` | src/effectcheck.c:2590-2654 | without the intermediate unions the order matters |
| `TupleOrigins.JoinElements` | src/effectcheck.c:2702-2720 | the loop over the elements of a tuple yields the union of their origins since the last restart |
| `TupleOrigins.TupleIsUnion` | src/effectcheck.c:2702-2720 | a tuple has an origin if and only if some element since the last restart has one, and it has exactly the roots of these |
| `TupleOrigins.TupleCovers` | src/effectcheck.c:2702-2720 | a tuple has the roots of all its elements if and only if those before the last restart occur again after it |
| `TupleOrigins.NoRestart` | src/effectcheck.c:2702-2720 | there is no restart if and only if every union on the way is interned |
| `TupleOrigins.TupleOfInterned` | src/effectcheck.c:2702-2720 | if every union on the way is interned, a tuple has the union of its elements |
| `TupleOrigins.TupleForgets` | src/effectcheck.c:2702-2720 | a tuple of three elements that keeps the origin of the last only |
| `ProvenanceCheck.StackBound` | src/effectcheck.c:3096-3107 | on a single-parent forest the stack never holds more than twice as many entries as there are nodes |
| `ProvenanceCheck.LiveEntries` | src/effectcheck.c:3109-3131 | in any forest a node has at most three live entries, and three if and only if it is open, waits under an earlier node, and is the entry on top, about to be rejected as a cycle |
| `ProvenanceCheck.ThreeLive` | src/effectcheck.c:3109-3131 | a search state with three live entries of one node occurs in a forest with a cycle, which spans that nest rule out |
| `ProvenanceCheck.TwoLive` | src/effectcheck.c:3109-3131 | without a cycle no node ever has more than two live entries |
| `ProvenanceCheck.CycleFound` | src/effectcheck.c:3121-3125 | meeting a node that is still open closes a cycle |
| `ProvenanceCheck.Validate` | src/effectcheck.c:3084-3163 | validation accepts if and only if the dependencies are acyclic and every node passes its check; the fixed array never overflows |
| `ProvenanceOrigins.ArenaForest` | src/effectcheck.c:2909-3028 | what the search pushes for the expressions and locals of an arena meets the forest condition that the search relies on, in both passes |
| `ProvenanceOrigins.ValidateOrigins` | src/effectcheck.c:3030-3163 | both passes accept if and only if dependencies are acyclic, every stored origin equals the one recomputed from the stored origins of its operands, for every kind of expression and local, and its roots are capability parameters of the owner; `AcceptedTuple` and `AcceptedJoin` say what this means for tuples and branches |
| `ProvenanceOrigins.AcceptedTuple` | src/effectcheck.c:2702-2720 | an accepted tuple has the roots of its elements since the last restart, and those of all of them exactly if none before it is missing after it |
| `ProvenanceOrigins.AcceptedJoin` | src/effectcheck.c:2590-2654 | an accepted conditional or match has the join of its branches |
| `ProvenanceMeaning.BlockOrigin` | src/effectcheck.c:2470-2523 | a block has the origin of its last statement if that is an expression with a value of known type and no statement before it departs, and otherwise none |
| `ProvenanceMeaning.TakenStored` | src/effectcheck.c:2721-2805 | an accepted field, call, wrapper, path, handler, block or old expression has the stored origin of the one operand or local it takes it from, or none |
| `ProvenanceMeaning.OriginsMean` | src/effectcheck.c:2683-2805 | accepted origins have exactly the roots whose authority values may carry if and only if every tuple accounts for its elements; and they never have other roots |
| `ProvenanceMeaning.InternedIsExact` | src/effectcheck.c:3030-3163 | if the unions on the way to every tuple are interned and its elements have origins, every stored origin has exactly the roots whose authority the value may carry |
| `ProvenanceMeaning.TupleLosesAuthority` | src/effectcheck.c:2702-2720 | an accepted arena with a tuple that carries authority its origin does not name |
| `ProvenanceOrigins.PositionsAcyclic` | src/effectcheck.c:2842-2883 | where spans nest and locals are declared before they are named, the dependencies that the search follows are acyclic |
| `ProvenanceOrigins.TwoLiveEntries` | src/effectcheck.c:3109-3131 | in the searches that follow the test of local resolutions no node ever has more than two live entries |
| `ProvenanceOrigins.ExpectedSame` | src/effectcheck.c:2683-2805 | the recomputed origin of an expression depends on no other origins than those of its operands and its local |
| `ProvenanceOrigins.OriginsDetermined` | src/effectcheck.c:2842-2883 | where locals are declared before they are named, the origins that are accepted are the only ones that are |
| `ProvenanceOrigins.SelfFedUndetermined` | src/effectcheck.c:2909-3028 | without that test two different labellings of one arena are accepted |
| `ExpressionOwners.Construct` | src/effectcheck.c:2005-2450 | owner construction accepts if and only if uses do not conflict, declared roots exist, are distinct and unused, and every used expression that no root leads to hangs below one with a smaller index; what it accepts is a forest: one parent and one place per expression, one list per list element, constant owners along each tree and none where no declared root leads, parents before children; it terminates on cyclic next links |
| `ExpressionOwners.Builder.ScheduleList` | src/effectcheck.c:1978-2003 | following a list claims every element of it once, or fails |
| `ExpressionOwners.StackFits` | src/effectcheck.c:2028-2031 | entries to enter and entries to leave together never exceed one per expression, so the fixed stack never overflows |
| `Transaction.Disk.Rename` | src/main.c:345-351 | a rename moves the bytes at once or changes nothing |
| `Transaction.Rewrite.Commit` | src/main.c:341-351 | every write before the first failure is committed, no original is lost, and without faults all are |
| `Transaction.Rewrite.Rollback` | src/main.c:222-251 | every original in a backup is put back unless its rename fails, and its directory is synced after that unless a call fails |
| `Transaction.Rewrite.Cleanup` | src/main.c:168-192 | staging files and unused reservations go; an original that could not be put back stays |
| `Transaction.WriteFormatted` | src/main.c:253-393 | at every moment every original is at its path or its backup, or everything is rewritten and the directory of every changed file was synced while it was; success means all changed files are formatted, durably, and were unmodified before; failure restores every file unless a second call failed; without faults it succeeds and leaves nothing behind |
| `LexicalScope.FindVisible` | src/hir.c:1435-1469 | the first declaration of the module with the name; without one the target of the first import of it; without either nothing |
| `Resolver.Resolver.Find` | src/hir.c:1471-1483 | the last binding on the stack with the name; without one what the module makes visible; without that a builtin or nothing; which is what the environment-passing resolver finds |
| `Resolver.Resolver.AddBinding` | src/hir.c:1500-1560 | a binding extends the innermost scope, is reported exactly if its name is already there, and always finds room |
| `Resolver.Resolver.ArmExpression` | src/hir.c:1597-1616 | a match arm is resolved in a scope of its own that the mark closes again |
| `Resolver.Resolver.BlockExpression` | src/hir.c:1632-1719 | a block threads one scope through its statements, and the stack is afterwards what it was |
| `Resolver.Resolver.Expression` | src/hir.c:1721-1854 | the resolutions and problems recorded for an expression are those of the environment-passing resolver; stack, depth and loop count are restored |
| `ScopePositions.PathMeans` | src/hir.c:1721-1854 | a path means the innermost declaration around it in the tree that has its name: those of the enclosing arms and of the earlier statements of the enclosing blocks; else what lies outside |
| `ScopePositions.ProblemsMean` | src/hir.c:1721-1854 | a problem is reported if and only if some expression in the tree causes it: a path that means nothing, a pattern or block that declares a name twice, or an exit outside every loop |
| `Resolver.Resolver.Rooted` | src/hir.c:2417-2428 | the same for a body or condition under its parameters; the tables of fixed capacity never run out |
| `Resolver.DistinctSitesFit` | src/hir.c:1376-1397 | distinct declarations of a file never exceed the capacity of the tables |
| `Formatter.AppendBreak` | src/formatter.c:81-94 | line breaks are added up to two, counting those already there |
| `Formatter.RenderRaw` | src/formatter.c:261-350 | the loop computes the rendering of the pieces of the source |
| `Formatter.FixedPoint` | src/formatter.c:261-350 | rendering depends only on kinds, texts, unary and angle marks and line breaks clipped at two |
| `Formatter.StepGap` | src/formatter.c:298-322 | before a token only blanks and line breaks are written, and the line breaks are those of the source, up to two |
| `Formatter.RenderedIsWoven` | src/formatter.c:261-350 | the output is the texts of the tokens in order, with nothing but layout between |
| `Layout.LineIndented` | src/formatter.c:311-322 | before the first piece of a line stand at most two line breaks and four blanks for every bracket open before it, one fewer if it closes one |
| `Layout.ClosingAligned` | src/formatter.c:311-322 | a closing bracket at the start of a line stands as deep as the line of its opening bracket would |
| `Layout.LineSpaced` | src/formatter.c:298-322 | within a line one blank precedes a piece if the spacing rules ask for it, and none otherwise |
| `Layout.NoBlank` | src/formatter.c:151-205 | commas, dots, colons, question marks and closing brackets follow directly, and so does what follows opening brackets, dots and at signs |
| `Layout.OneBlank` | src/formatter.c:151-205 | where exactly one blank stands between two ordinary pieces on a line |
| `Layout.UnarySpacing` | src/formatter.c:151-205 | a unary operator stands directly before its operand and apart from a word before it |
| `Layout.AngleSpacing` | src/formatter.c:151-205 | comments and comparisons stand apart, the brackets of a type do not |
| `Formatter.NoNul` | src/formatter.c:448-455 | a source without NUL gives an output without NUL, so re-reading it as a C string loses nothing |
| `Formatter.TokensEqual` | src/formatter.c:352-389 | two sources compare equal if and only if their tokens other than layout agree in kind and text |
| `Formatter.FormatSource` | src/formatter.c:423-541 | the driver returns a rendering exactly if it lexes, parses, keeps the tokens and renders to itself |
| `Formatter.FormatIdempotent` | src/formatter.c:423-541 | for every front end and source, formatting keeps the tokens and formatting its result returns it unchanged |
| `Relexing.Ahead` | src/lexer.c:222-404 | one character of lookahead decides whether a token keeps its kind and extent |
| `Relexing.RenderingKeepsTokens` | src/formatter.c:352-389 | for every source, lexing the rendering gives the same tokens if and only if no token runs on into what the renderer writes after it |
| `Relexing.RenderingStable` | src/formatter.c:261-350 | if no token runs on and the marks stay, rendering the output again changes nothing |
| `Relexing.OnlySymbolsGlue` | src/formatter.c:151-205 | besides literals left open, only a one-character symbol written directly before a character that makes it a longer symbol or opens a comment can run on |
| `Relexing.TokensGlue` | src/formatter.c:151-205 | a source whose rendering has other tokens |
| `Relexing.SelfCheck` | src/formatter.c:423-541 | the driver accepts a rendering if and only if no token runs on and the second rendering agrees; and it must accept if none runs on, no literal is left open, and the front end finds the same unary operators and angle brackets |
| `CleanRendering.GluedIsClash` | src/formatter.c:151-205 | in such a source a token runs on if and only if it is one of these brackets or operators |
| `CleanRendering.CleanRenderingKeepsTokens` | src/formatter.c:151-205 | for a source without lexical errors, lexing the rendering gives the same tokens if and only if no bracket of a type stands next to `-` or `=` on one line |
| `CleanRendering.CleanSelfCheck` | src/formatter.c:423-541 | with a front end that rejects lexical errors, the driver loses a source only if a bracket of a type stands next to an operator or the second rendering differs, and it accepts if neither happens and the front end finds the same marks |
| `MirValidation.Validator.Tick` | src/mir_concrete_validate.c:11-20 | a payment succeeds if and only if it stays within the limit |
| `MirValidation.Validator.CheckBindings` | src/mir_concrete_validate.c:116-148 | marking succeeds if and only if all bindings have distinct demands in range and closed targets, at two units each |
| `MirValidation.Validator.CheckSlices` | src/mir_concrete_validate.c:160-169 | the running offset accepts exactly slices that lie end to end and use up all blocks |
| `MirValidation.PigeonholeResolves` | src/mir_concrete_validate.c:149-154 | as many bindings as demands with distinct demands resolve every demand |
| `MirValidation.BindingsBijective` | src/mir_concrete_validate.c:116-154 | in an accepted program every demand has exactly one binding |
| `MirValidation.BlocksPartitioned` | src/mir_concrete_validate.c:160-169 | in an accepted program every block belongs to exactly one image |
| `MirValidation.CensusCounts` | src/mir_concrete_validate.c:170-182 | the census has the number of instructions of each class |
| `MirValidation.ExitsCount` | src/mir_concrete_validate.c:183-190 | the exit counters are the numbers of propagations and of contract and refinement checks |
| `MirValidation.InvocationsResolve` | src/mir_concrete_validate.c:116-205 | in an accepted program every invocation has a binding, and this leads to an image or an import that exists |
| `MirValidation.Validate` | src/mir_concrete_validate.c:214-273 | validation succeeds if and only if all semantic checks hold and the requirement can be represented, and then spends exactly the requirement |
| `ContractSnapshots.Lowerer.Append` | src/contract.c:947-988 | a snapshot joins the arena, the obligation's slice and the expression table |
| `ContractSnapshots.Lower` | src/contract.c:1763-1799 | every obligation gets a slice; the slices lie end to end in the order of the conditions, hold their old expressions in order, and pass inspection |
| `ContractSnapshots.LoweringPassesPreflight` | src/inspection.c:1826-1856 | a lowered table meets every check the inspection makes on snapshots |
| `ContractSnapshots.Inspect` | src/inspection.c:1826-1856 | the inspection loops accept exactly the tables that meet the checks |
| `ContractSnapshots.PreflightPartitions` | src/inspection.c:1826-1856 | the inspection accepts only tables whose slices partition the arena |
| `ContractSnapshots.PreflightInverse` | src/inspection.c:1909-1914 | and whose expression and snapshot tables are inverse to each other |
| `Encoders.ClassifierSound` | src/inspection.c:85-101 | what the classifier accepts is the encoding of a scalar value (section 3 of RFC 3629) |
| `Encoders.ClassifierComplete` | src/inspection.c:85-101 | every encoding of a scalar value is accepted with its length |
| `Encoders.WriteString` | src/inspection.c:103-132 | the loop writes the escaped text between quotes |
| `Encoders.EscapeShortest` | src/inspection.c:103-132 | a byte outside multi-byte characters stands for itself unless it must be escaped, and is then written as short as the reader allows |
| `Encoders.EscapeRoundTrip` | src/inspection.c:103-132 | a byte-level unescape undoes escaping for every byte string, well-formed or not |
| `Encoders.EscapeIsJson` | src/inspection.c:103-132 | what is written is the inside of a JSON string (section 7 of RFC 8259) |
| `Encoders.EscapeIsUtf8` | src/inspection.c:103-132 | what is written encodes a sequence of scalar values |
| `Encoders.WriteBase64` | src/inspection.c:326-345 | the loop writes the base64 groups between quotes |
| `Encoders.Base64RoundTrip` | src/inspection.c:326-345 | the decoder of section 4 of RFC 4648 returns the bytes, for every length |
| `EffectsReport.Collector.Push` | src/effects.c:85-98 | an expression is marked and pushed once; there is always room for it |
| `EffectsReport.Collector.Collect` | src/effects.c:100-201 | the worklist finds exactly the calls reachable from a body, once each, and fails exactly if something reachable is out of range |
| `EffectsReport.SortSlice` | src/effects.c:202-212 | the insertion sort replaces the slice by its sorted form and touches nothing else |
| `EffectsReport.SortedFormSorts` | src/effects.c:202-212 | the sorted form is sorted and a permutation, for every total order |
| `EffectsReport.CallsTotallyOrdered` | src/effects.c:57-69 | the comparison of calls is a strict total order |
| `EffectsReport.CallablesTotallyOrdered` | src/effects.c:36-55 | the comparison of callables is a strict total order |
| `EffectsReport.ListCalls` | src/effects.c:100-214 | the list of a callable is the one list of its reachable calls by start, end, kind and index, whatever order the worklist found them in |
| `EffectsReport.OrderCallables` | src/effects.c:242-251 | the callables are listed once each, by path, span, kind, name and index, texts in the order of their first different bytes |

## Left out

- EffectSemantics: events are trusted to stay within the declared row where a callable has no body (host operations).
- Effect clauses: normalisation of written atoms and its diagnostics (`src/effectcheck.c:433-640`); rows arrive normalised.
- Match guards inside the effect walk (`src/effectcheck.c:1444-1450`): a separate purity pass handles them.
- The test that an unresolved callee row occurs in the caller's row is kept in `EffectCheck.ValidateSite`, where lexical scoping of effect parameters makes it redundant.
- EffectInference.Checker.InferCall: does not model that the array of a row may move while it is read on direct self-recursion (see "Where code and expectation differ"); the callee's row is read before any instance is added.
- The earlier stages' outputs (resolved callees, provenance of arguments, handler shapes, coercion shapes) are inputs with stated well-formedness; the parser and the type checker are not part of this model.
- Limits on nesting depth (256, 64), allocation failure and resource charges, except where a fixed capacity is itself the property.
- Exit entries of the owner traversal (`src/effectcheck.c:2124-2131`): they set a state that no test distinguishes; `ExpressionOwners.StackFits` counts them.
- The states of expressions during name resolution: an expression occurs once in a tree, so they never matter there.
- Lexer diagnostics: whether a token is reported (open literals and comments, invalid bytes) is modelled, the messages and the report of unsupported escapes are not.
- Transaction: what a crash leaves of calls that were not synced; a sync is a call that can fail, changes nothing visible, and is on record. Other processes do not interfere between verification and renaming. Mode bits are not modelled.
- Formatter: the front end is a function of text and tokens that may fail; the classification of `<` and `>` uses the operand spans it reports.
- The linkage validator's own result and measured work are an input of `MirValidation.Validate`.
- Collision resistance of the identity hash.
- Session states, diagnostics rendering, command-line handling, and the rendering of inspection and report records: bookkeeping that would only add easy members.
