# Verified model of the task runner's decision logic

This project models, in Dafny, the parts of the repository that decide: the task state
machine with its retry accounting, the glob algebra of the policies, the RED and GREEN
evidence classifiers with the test manifest, the recognisers they rely on, and two graph
algorithms. `dafny verify dfyconfig.toml` checks the whole project.

The model takes the form of the code. What only computes is a function with lemmas about
it. What works step by step is a method with a loop, or a class whose methods update its
fields, and is proved against a specification; the theorems are about the specification.

**Task state machine** (`Machine`, `Accounting`, `Fire`, `Advance`, `Apply`, `Runs`,
`AttemptBooks`, `FactSources`, `Stepping`, `Load*`). `Fire.Decide`, `Advance.Advance` and
`Apply.ApplyStep` are the pure form for a consistent set of facts; `Stepping` is the code
with its caches, asking a base (`FactSources.Base`) that may answer differently every time
it is asked. A run is a sequence of `Apply` calls on any table. The conditions a theorem
needs of the table are named predicates: `Load.LoadOk` is what the loader checks,
`Apply.Acceptable` and `AttemptBooks.Disciplined` are the extra ones. The one condition of
`Acceptable` on targets that the loader does not give is that every mode has a state: in a
mode without one a creation fires and `Advance` refuses it (`LoadModes`). `SampleTable`
meets all conditions together.

**Glob algebra** (`Glob*`). `GlobLanguage.Matches` is the declarative meaning over an
unbounded alphabet. The automata, their closure and the search over bit vectors are
imperative, and decide that meaning.

**Evidence classifiers** (`Evidence`, `Ordering`, `Green*`, `Red*`, `Generation*`,
`Manifests`, `Successions`, `Witnesses`). Each rule is a predicate on the documents; the
verdict is their combination. `GreenPassIff` and `RedValidIff` say what a passing verdict is
worth, in both directions. `ManifestAgreesWithR14` and `BuildSucceedsIff` connect the R14
check with the builder that runs after it, which derives tests and criteria with loops of
its own. `Successions` follows generations that are each built on the manifest of the one
before. `Witnesses` and `GreenWitness` hold documents that meet the conditions.

**Ingestion and integrity** (`Trees`, `Ingest`, `SemanticKeys`, `Integrity`). Git trees are
maps from path to mode and blob. A chain of ingestion steps is connected with the integrity
facts at its head, and those with rule G2.

**Recognisers and graphs** (`Toml*`, `AddedLines*`, `GoShape`, `Dag`, `LoadGraph`). Readers
are proved to read back what is printed for every value, the structural comparison to lose
nothing along a chain, and the searches to find exactly the reachable nodes and the cycles.

Where code and comments differ the model follows the code:

- An unreported test that passed at the base and is present at the head counts as passed
  (`Red.HeadStatus`), in a complete report too: `Witnesses.UnreportedTestInValidRed` is such
  a `red_valid`. The RED theorem therefore says of such a test that it is present, and
  passes if it is reported.
- Two violations of one path that differ only in their detail are one violation. Of several
  changed semantic keys at most the first is reported by name, and not even that one when
  the file is protected as a whole or may not be added.
  `SemanticKeys.SemanticKeyRecordedIff` is the exact condition, `SecondKeyIsNotNamed` and
  `WholeFileHidesKeys` are the inputs; the path is reported in any case
  (`RangeReportsChangedKeys`).
- A head run may exit with a failure inside a `green_pass` only if its counts add up to a
  negative number (`GreenMeaning.GreenPassRunsSucceeded`);
  `GreenWitness.FailedRunInGreenPass` is one that does.

## Model

| member | source | states |
|---|---|---|
| `GlobLanguage.TokensAcceptMatches` | src/internal/policy/glob.go:10-64 | the tokens parseGlob produces accept exactly the texts the declarative meaning of `**/`, `**`, `*`, `?` and literals matches |
| `GlobLanguage.Tokens` | src/internal/policy/glob.go:41-64 | a token list in which the two states of `**/` always stand together |
| `GlobLanguage.StarAccepts` | src/internal/policy/glob.go:10-64 | a `*` token accepts any run of runes without a slash |
| `GlobLanguage.AnyAccepts` | src/internal/policy/glob.go:10-64 | a `**` token accepts any run of runes |
| `GlobLanguage.DirsAccepts` | src/internal/policy/glob.go:10-64 | a `**/` token pair accepts nothing or whole directories |
| `GlobAutomaton.EpsilonClosureIsLeast` | src/internal/policy/glob.go:121-136 | the closure is the least set of states closed under the silent moves |
| `GlobAutomaton.NextAccepts` | src/internal/policy/glob.go:147-185 | one step keeps exactly the texts that are still accepted |
| `GlobAutomaton.FinalIffMatches` | src/internal/policy/glob.go:138-185 | the final state is reached exactly on the texts the glob matches |
| `GlobAutomaton.SameClassSameNext` | src/internal/policy/glob.go:80-107 | runes that are neither a literal of the glob nor a slash are indistinguishable |
| `GlobAutomaton.AlivePrefix` | src/internal/policy/glob.go:244-248 | a dead state set stays dead, so pruning it loses no text |
| `GlobSearch.ParseGlob` | src/internal/policy/glob.go:41-64 | the tokeniser loop computes the token list |
| `GlobSearch.NewGlobSet` | src/internal/policy/glob.go:80-107 | the globs are laid out one behind the other, and the alphabet holds the literals, the slash and one rune that no glob mentions |
| `GlobSearch.AlphabetOf` | src/internal/policy/glob.go:96-105 | the alphabet holds every literal, the slash and one rune no glob mentions, and nothing else |
| `GlobSearch.CloseOne` | src/internal/policy/glob.go:121-136 | one ascending pass over the bits of a glob sets exactly the closure |
| `GlobSearch.Closure` | src/internal/policy/glob.go:121-136 | the same for all globs in one vector, without touching another glob's bits |
| `GlobSearch.Initial` | src/internal/policy/glob.go:138-145 | the closed start states of all globs |
| `GlobSearch.MoveOne` | src/internal/policy/glob.go:147-185 | the moves of one glob on a rune, before the closure |
| `GlobSearch.Step` | src/internal/policy/glob.go:147-185 | one rune moves every automaton of the vector |
| `GlobSearch.MatchGlob` | src/internal/policy/glob.go:284-293 | decides the declarative meaning for every glob and path |
| `GlobDecision.FiniteAlphabetSuffices` | src/internal/policy/glob.go:80-107 | every text has a text over the finite alphabet on which all globs behave alike |
| `GlobDecision.ExhaustedMeansNone` | src/internal/policy/glob.go:212-261 | an exhausted search without an accepting state rules out every text |
| `GlobDecision.SearchPath` | src/internal/policy/glob.go:212-261 | found exactly when some text is matched by every positive and no negative glob; always an answer when the state sets fit the limit |
| `GlobDecision.BitVectorsBounded` | src/internal/policy/glob.go:212-261 | the search visits at most one vector per set of states |
| `GlobDecision.DroppingDisjoint` | src/internal/policy/glob.go:187-210 | leaving out a negative glob that meets no positive one changes nothing |
| `GlobDecision.ExistsPath` | src/internal/policy/glob.go:187-210 | the same decision with the disjoint negatives dropped, and always an answer when the state sets of all globs fit the limit |
| `GlobDecision.FewerFit` | src/internal/policy/glob.go:187-210 | dropping globs never makes a search exceed the limit |
| `GlobDecision.GlobsIntersect` | src/internal/policy/glob.go:263-266 | some text is matched by both globs and by none of the denied ones; always an answer when the state sets fit the limit |
| `GlobDecision.GlobInsideUnion` | src/internal/policy/glob.go:268-272 | decides language inclusion in the union; always an answer when the state sets fit the limit |
| `Dag.IndexHoldsLast` | src/internal/lint/dag.go:147-154 | every declared id with its last declaration, and no other id |
| `Dag.TopologicalMeansAcyclic` | src/internal/lint/dag.go:164-194 | nodes finished before everything that refers to them lie on no cycle |
| `Dag.ClosingTrailHoldsCycle` | src/internal/lint/dag.go:164-194 | the trail a finding prints contains a cycle |
| `Dag.CycleCheck.Visit` | src/internal/lint/dag.go:172-189 | a visit blackens the node, keeps the grey nodes those of the stack, and reports only closing trails |
| `Dag.CycleCheck.Blacken` | src/internal/lint/dag.go:172-189 | a node turns black behind everything it refers to |
| `Dag.BuildIndex` | src/internal/lint/dag.go:147-154 | the loop computes the index |
| `Dag.FindsCycle` | src/internal/lint/dag.go:164-194 | reported exactly when deps and after edges over known ids have a cycle, for every finite graph |
| `Dag.UpstreamWalk.Walk` | src/internal/lint/dag.go:298-315 | the walk marks exactly the nodes reached from the marked ones |
| `Dag.Upstream` | src/internal/lint/dag.go:298-315 | exactly the ids reachable over one or more references |
| `Accounting.ChangeIsTheSum` | src/internal/statemachine/accounting.go:447-548 | the change of every counter is the sum of the dispatch, class, end and held parts |
| `Accounting.SameChanges` | src/internal/statemachine/accounting.go:447-548 | a delta map without zeros is determined by its changes |
| `Accounting.CountDispatch` | src/internal/statemachine/accounting.go:474-491 | what a dispatch charges |
| `Accounting.CountClass` | src/internal/statemachine/accounting.go:492-512 | what a counted failure class adds, merit by role and generation |
| `Accounting.CountEnd` | src/internal/statemachine/accounting.go:513-538 | what an ended execution gives back or resets |
| `Accounting.CountHeld` | src/internal/statemachine/accounting.go:539-546 | what entering or leaving a held state changes |
| `Accounting.ComputeDeltas` | src/internal/statemachine/accounting.go:447-548 | the mutated delta map holds exactly the specified change of every counter |
| `Machine.FirstDispatch` | src/internal/statemachine/accounting.go:401-413 | the dispatch of the first transition that dispatches into the state, or none if there is none |
| `Fire.Candidates` | src/internal/statemachine/fire.go:176-186 | exactly the transitions of the table that apply to the event |
| `Fire.CandidatesConcat` | src/internal/statemachine/fire.go:176-186 | the candidates come in the order of the table |
| `Fire.SortById` | src/internal/statemachine/fire.go:194-194 | a permutation of the candidates in ascending order |
| `Fire.SortIsStable` | src/internal/statemachine/fire.go:194-194 | candidates with the same id keep the order of the table |
| `Fire.FailedGuards` | src/internal/statemachine/fire.go:259-276 | empty exactly when the transition passes |
| `Fire.FailedGuardsAre` | src/internal/statemachine/fire.go:259-276 | the failed guards are the guards that do not hold, each once, with the implicit actor guard first |
| `Fire.TryAll` | src/internal/statemachine/fire.go:195-208 | a winner passes, and no winner means no candidate passes |
| `Fire.WinnerComesFirst` | src/internal/statemachine/fire.go:194-208 | every candidate with a lower id than the winner fails |
| `Fire.FiredIsLowest` | src/internal/statemachine/fire.go:150-221 | a fired decision is the lowest passing candidate with its target, effects and changes |
| `Advance.AdjustedReads` | src/internal/statemachine/accounting.go:624-657 | applying the deltas adds to every counter exactly its change |
| `Advance.AdvancedIffAdmitted` | src/internal/statemachine/accounting.go:699-762 | a decision is accepted exactly when it matches the table, its guards recheck, its changes are the recomputed ones and no counter becomes negative |
| `Apply.RecheckAgrees` | src/internal/statemachine/accounting.go:857-909 | what the recheck knows about a guard agrees with what the decision found |
| `Apply.WinnerRechecks` | src/internal/statemachine/accounting.go:873-909 | the fired transition passes the recheck, and no lower id shadows it |
| `Apply.RecordedIsRecomputed` | src/internal/statemachine/accounting.go:984-1014 | the recorded changes are the ones Advance derives on its own |
| `Apply.FiredMatchesTable` | src/internal/statemachine/accounting.go:699-752 | target, effects, class and reason of a fired decision are the table's |
| `Apply.AdvanceAcceptsFire` | src/internal/statemachine/accounting.go:984-1014 | Advance accepts every transition Fire applies; only a negative counter can make the step fail |
| `Runs.ReplayConcat` | src/internal/statemachine/accounting.go:1016-1031 | replaying a concatenation is replaying one part after the other |
| `Runs.RunReplays` | src/internal/statemachine/accounting.go:984-1031 | replaying the steps a run appended never errs and rebuilds the final task |
| `Runs.AdvanceKeepsOrder` | src/internal/statemachine/accounting.go:624-657 | a step keeps consecutive timeouts within consecutive infrastructure failures within their total |
| `Runs.RunKeepsOrder` | src/internal/statemachine/accounting.go:1016-1031 | the same over every run, for any table |
| `Runs.AdvanceNeverLowers` | src/internal/statemachine/accounting.go:489-548 | no step lowers generation, class, merit, review or auxiliary counters |
| `Runs.RunNeverLowers` | src/internal/statemachine/accounting.go:1016-1031 | no run lowers them, for any table |
| `Runs.AdvanceRequeueLimited` | src/internal/statemachine/accounting.go:279-286 | a requeue happens only below the infrastructure total and counts towards it |
| `Runs.RequeuesWithinTotal` | src/internal/statemachine/accounting.go:279-286 | a run from zero counters has fewer requeues than the total |
| `Runs.RunKeepsReturn` | src/internal/statemachine/accounting.go:783-797 | in every run from creation the return state is empty outside execution states and inside them the last other state of the history |
| `Runs.ReturnGoesBack` | src/internal/statemachine/fire.go:339-344 | a fired return leads to the state the dispatch came from |
| `AttemptBooks.DispatchBalances` | src/internal/statemachine/accounting.go:911-965 | a dispatch adds one running execution, charged as it counts |
| `AttemptBooks.FreeStepBalances` | src/internal/statemachine/accounting.go:911-965 | outside execution states no charge changes without a dispatch |
| `AttemptBooks.ExitBalances` | src/internal/statemachine/accounting.go:911-965 | what leaves an execution state ends its execution, and the refund follows the counter |
| `AttemptBooks.RequeueBalances` | src/internal/statemachine/accounting.go:911-965 | refund and new charge of a requeue cancel out |
| `AttemptBooks.StayBalances` | src/internal/statemachine/accounting.go:911-965 | a step that stays and ends nothing changes no charge |
| `AttemptBooks.AdvanceKeepsBooks` | src/internal/statemachine/accounting.go:753-782 | a step keeps the books: used counters equal the counted, not refunded executions of their kind, stay within their maxima, and at most one execution runs |
| `AttemptBooks.RunKeepsBooks` | src/internal/statemachine/accounting.go:1016-1031 | the books hold after every run |
| `AttemptBooks.AdmittedNeverOverdraws` | src/internal/statemachine/accounting.go:624-657 | in kept books no admitted step makes a counter negative |
| `AttemptBooks.RunNeverRefused` | src/internal/statemachine/accounting.go:984-1014 | no step of a run from zero is ever refused by Advance |
| `Load.LoadedTargetsInMode` | src/internal/statemachine/load.go:557-607 | on a loaded table transitions lead into their mode exactly when every mode has a state |
| `Load.RuleFacts` | src/internal/statemachine/load.go:557-607 | what passing the transition rules gives: creation, modes, terminals, held exits |
| `SampleTable.ConditionsAreConsistent` | src/internal/statemachine/load.go:178-230 | one table with a counted dispatch, a requeue and a return passes the modelled passes of Load and meets every condition of the theorems about runs |
| `LoadModes.EmptyModeRefusesCreation` | src/internal/statemachine/accounting.go:714-718 | in a mode without states every creation that fires is refused |
| `LoadModes.EmptyModePassesLoad` | src/internal/statemachine/load.go:854-940 | a concrete table with an empty mode passes the modelled passes of Load |
| `LoadModes.CreationInEmptyModeIsRefused` | src/internal/statemachine/accounting.go:984-1014 | on that table creating a task fires, and Advance refuses it for another reason than a counter |
| `LoadGraph.Bfs` | src/internal/statemachine/load.go:942-960 | exactly the nodes connected with the start, none when it is not in the mode |
| `LoadGraph.AddEdge` | src/internal/statemachine/load.go:865-872 | an edge is kept in both directions exactly when both ends are in the mode |
| `LoadGraph.StatesInMode` | src/internal/statemachine/load.go:859-864 | exactly the states of the mode |
| `LoadGraph.Targets` | src/internal/statemachine/load.go:877-897 | the states a transition can lead to, return and resume targets expanded |
| `LoadGraph.AddTransition` | src/internal/statemachine/load.go:873-898 | adds exactly the edges of the transition |
| `LoadGraph.BuildGraph` | src/internal/statemachine/load.go:865-898 | the adjacency lists hold exactly the edges of the mode |
| `LoadGraph.ConnectedIsReaches` | src/internal/statemachine/load.go:854-940 | connected in the lists is reachable in the table |
| `LoadGraph.ReversedConnects` | src/internal/statemachine/load.go:900-911 | searching backwards from a terminal finds what reaches it |
| `LoadGraph.EndingStates` | src/internal/statemachine/load.go:900-911 | exactly the states from which a terminal is reachable |
| `LoadGraph.CheckMode` | src/internal/statemachine/load.go:912-926 | exactly the unreachable and the non-terminating states of the mode |
| `LoadGraph.CheckGraph` | src/internal/statemachine/load.go:854-940 | accepts exactly when every state of every mode is reachable and can end |
| `LoadRules.CheckDeclarations` | src/internal/statemachine/load.go:392-452 | accepts exactly the tables with unique, declared names and ids whose terminal states are the listed ones |
| `LoadRules.CheckTerminals` | src/internal/statemachine/load.go:410-425 | accepts exactly when the list names the terminal states, and each as terminal |
| `LoadRules.CheckRule` | src/internal/statemachine/load.go:557-607 | the first rule a transition breaks, in rule order |
| `LoadRules.CheckModes` | src/internal/statemachine/load.go:686-715 | every source is in a mode of the transition and its target in the source's modes |
| `LoadRules.CheckRules` | src/internal/statemachine/load.go:557-607 | the error of the first transition that breaks a rule |
| `LoadRules.CheckCreation` | src/internal/statemachine/load.go:663-679 | every mode has a creating transition |
| `LoadRules.LoadTable` | src/internal/statemachine/load.go:178-230 | the modelled passes together accept exactly the loadable tables whose terminal states are the listed ones |
| `LoadSafety.TargetIsEdge` | src/internal/statemachine/fire.go:332-353 | a resolved target, including $return, $resume and $same, is an edge of the checked graph |
| `LoadSafety.FiredIsEdge` | src/internal/statemachine/fire.go:150-221 | every step Fire takes on a loaded table is an edge of the checked graph |
| `LoadSafety.RunWalksGraph` | src/internal/statemachine/accounting.go:1016-1031 | every run stays in states of its mode that are reachable and can reach a terminal |
| `LoadSafety.TerminalIsFinal` | src/internal/statemachine/load.go:578-585 | a terminal state admits no step |
| `LoadSafety.HeldIsLeftByHuman` | src/internal/statemachine/load.go:590-596 | only a human event leaves BLOCKED or NEEDS_HUMAN |
| `FactSources.AccountingSource.Bool` | src/internal/statemachine/accounting.go:236-298 | whatever the base answers, the answers given belong to one consistent set of facts |
| `FactSources.AccountingSource.Value` | src/internal/statemachine/accounting.go:299-325 | the same for valued facts |
| `FactSources.AccountingSource.CodeOf` | src/internal/statemachine/accounting.go:327-330 | the failure code is asked once |
| `FactSources.FactCache.Bool` | src/internal/statemachine/fire.go:241-248 | a cached answer is the answer of the consistent facts |
| `FactSources.FactCache.Value` | src/internal/statemachine/fire.go:250-257 | the same for valued facts |
| `FactSources.FactCache.Holds` | src/internal/statemachine/fire.go:278-294 | a guard evaluated through the cache holds exactly in the consistent facts |
| `FactSources.FactCache.Failed` | src/internal/statemachine/fire.go:259-276 | the failed guards found through the cache are those of the consistent facts |
| `Stepping.CollectCandidates` | src/internal/statemachine/fire.go:176-186 | the loop collects the candidates |
| `Stepping.PickWinner` | src/internal/statemachine/fire.go:193-208 | the loop finds the winner of the consistent facts |
| `Stepping.FireEvent` | src/internal/statemachine/fire.go:150-221 | Fire over an inconsistent base decides as over one consistent set of facts |
| `Stepping.RecheckGuards` | src/internal/statemachine/accounting.go:873-909 | the recheck loop accepts exactly what the specification does |
| `Stepping.ApplyDeltas` | src/internal/statemachine/accounting.go:624-657 | the counters after the loop, or an error exactly when one becomes negative |
| `Stepping.ConflictOutcomeOf` | src/internal/statemachine/accounting.go:131-155 | approved, rejected and awaiting from the recorded verdicts |
| `Stepping.LastExecution` | src/internal/statemachine/accounting.go:659-666 | the last matching execution |
| `Stepping.EndRunning` | src/internal/statemachine/accounting.go:912-938 | the running execution gets the outcome of the event, and a requeue starts it again |
| `Stepping.CancelRunning` | src/internal/statemachine/accounting.go:939-944 | a cancelled execution, refunded as the counter is |
| `Stepping.FailJudged` | src/internal/statemachine/accounting.go:945-954 | a judgment that fails accepted work marks the execution it judges |
| `Stepping.UpdateExecutions` | src/internal/statemachine/accounting.go:911-965 | the execution records after the step |
| `Stepping.AdvanceTask` | src/internal/statemachine/accounting.go:699-827 | the checks in order, then the new task |
| `Stepping.ApplyEvent` | src/internal/statemachine/accounting.go:984-1014 | Apply over an inconsistent base asks each question at most once and is the specified step for consistent facts; on an acceptable table only a negative counter can make Advance refuse it |
| `Stepping.ReplaySteps` | src/internal/statemachine/accounting.go:1016-1031 | the loop computes the replay |
| `TomlParser.Parser.SkipBlanks` | src/internal/verify/ingest_toml.go:45-49 | stops right behind the blanks, inside the source |
| `TomlParser.Parser.SkipCommentHere` | src/internal/verify/ingest_toml.go:51-63 | stops at the end of the line and notes a control character |
| `TomlParser.Parser.SkipSpaces` | src/internal/verify/ingest_toml.go:65-77 | stops behind blanks, line ends and comments |
| `TomlParser.Parser.ReadKeyPart` | src/internal/verify/ingest_toml.go:100-124 | reads the key the grammar reader reads, and stops where it stops |
| `TomlParser.Parser.ReadKey` | src/internal/verify/ingest_toml.go:126-141 | the same for a dotted key |
| `TomlParser.Parser.ReadEscape` | src/internal/verify/ingest_toml.go:174-218 | the same for an escape, including a line continuation |
| `TomlParser.Parser.ReadBasic` | src/internal/verify/ingest_toml.go:145-225 | the same for the body of a basic string |
| `TomlParser.Parser.ReadLiteral` | src/internal/verify/ingest_toml.go:227-248 | the same for the body of a literal string |
| `TomlParser.Parser.ReadString` | src/internal/verify/ingest_toml.go:257-279 | the same for a string, single or multi-line |
| `TomlParser.Parser.ReadScalar` | src/internal/verify/ingest_toml.go:327-339 | the same for a raw scalar |
| `TomlParser.Parser.ReadArray` | src/internal/verify/ingest_toml.go:280-302 | the same for an array |
| `TomlParser.Parser.ReadTable` | src/internal/verify/ingest_toml.go:303-326 | the same for an inline table |
| `TomlParser.Parser.Read` | src/internal/verify/ingest_toml.go:257-339 | on every input the reader terminates inside the source, with the value of the grammar reader or an error |
| `TomlParser.Parser.Assign` | src/internal/verify/ingest_toml.go:341-376 | the same for an assignment into nested tables |
| `TomlRoundTrip.BasicRoundTrip` | src/internal/verify/ingest_toml.go:145-225 | an escaped string is read back byte for byte |
| `TomlRoundTrip.QuotedRoundTrip` | src/internal/verify/ingest_toml.go:227-279 | a quoted string is read back |
| `TomlRoundTrip.PlainRoundTrip` | src/internal/verify/ingest_toml.go:327-339 | a raw scalar is read back |
| `TomlRoundTrip.KeyRoundTrip` | src/internal/verify/ingest_toml.go:100-141 | a rendered key of one part is read back |
| `TomlRoundTrip.DottedRoundTrip` | src/internal/verify/ingest_toml.go:126-141 | a rendered dotted key of any number of parts is read back |
| `TomlRoundTrip.ValueRoundTrip` | src/internal/verify/ingest_toml.go:257-339 | the rendering of any value tree is read back as that tree, stopping right behind it |
| `TomlRoundTrip.ItemsRoundTrip` | src/internal/verify/ingest_toml.go:280-302 | the same for the items of an array |
| `TomlRoundTrip.EntriesRoundTrip` | src/internal/verify/ingest_toml.go:303-326 | the same for the entries of an inline table |
| `AddedLinesRoundTrip.HeaderIff` | src/internal/verify/gitdiff.go:185-185 | a line is a header exactly when it is `@@ -`, a range, ` +`, a range, ` @@` and anything, and what it gives are those digits |
| `AddedLines.ReadHunk` | src/internal/verify/gitdiff.go:226-252 | the loop reads the counted lines of a hunk and numbers the added ones |
| `AddedLines.ParseAddedLines` | src/internal/verify/gitdiff.go:209-258 | the loop reads what the hunk-by-hunk specification reads |
| `AddedLinesRoundTrip.HeaderRoundTrip` | src/internal/verify/gitdiff.go:185-185 | a printed header is read back |
| `AddedLinesRoundTrip.BodyRoundTrip` | src/internal/verify/gitdiff.go:226-252 | a hunk body is read back whatever its texts look like |
| `AddedLinesRoundTrip.HunksRoundTrip` | src/internal/verify/gitdiff.go:209-258 | a list of hunks is read back |
| `AddedLinesRoundTrip.PreambleSkipped` | src/internal/verify/gitdiff.go:209-224 | lines before the first hunk are passed over |
| `AddedLinesRoundTrip.AddedLinesReadBack` | src/internal/verify/gitdiff.go:209-258 | for every list of hunks the printed diff yields exactly the added lines, each with its line number at the head |
| `GoShape.SameCgo` | src/internal/verify/generations_struct.go:105-118 | the cgo declarations are the same, counted |
| `GoShape.KeepsImports` | src/internal/verify/generations_struct.go:119-134 | every base import is kept and every new one is plain |
| `GoShape.KeepsDecls` | src/internal/verify/generations_struct.go:135-163 | every declaration is kept, functions by key and the others counted |
| `GoShape.StructuralOk` | src/internal/verify/generations_struct.go:99-164 | decides whether the head only adds whole declarations and plain imports, apart from the allowed functions |
| `GoShape.KeepsIsMonotone` | src/internal/verify/generations_struct.go:99-164 | widening what is allowed never rejects more |
| `GoShape.KeepsItselfIff` | src/internal/verify/generations_struct.go:99-164 | a file keeps itself exactly when functions with one key have one text |
| `GoShape.KeepsComposesIff` | src/internal/verify/generations_struct.go:99-164 | two kept steps compose exactly when no import of the last that is not plain was new in between |
| `GoShape.KeepsIsTransitive` | src/internal/verify/generations_struct.go:99-164 | keeping is transitive on files whose imports show whether they are plain |
| `GoShape.ChainLosesNothing` | src/internal/verify/generations_struct.go:99-164 | along a chain every header, import and declaration of the first file survives |
| `Trees.DeriveDiff` | src/internal/verify/gitdiff.go:121-148 | one entry for every path whose entry differs and none else; refused exactly when unreadable or too many |
| `Ingest.MatchAny` | src/internal/verify/ingest_discovery.go:105-112 | some glob of the list matches the path |
| `Ingest.RecordKeys` | src/internal/verify/ingest.go:180-187 | recording loses no violation key and invents none |
| `SemanticKeys.RecordedIffFirst` | src/internal/verify/ingest.go:180-187 | a violation is recorded exactly when it is the first one found with its key |
| `Ingest.IngestCheck.Add` | src/internal/verify/ingest.go:180-187 | a violation is appended unless one with its key is there |
| `Ingest.IngestCheck.Red` | src/internal/verify/ingest.go:194-207 | the red tree, read once |
| `Ingest.IngestCheck.CheckPath` | src/internal/verify/ingest.go:209-224 | gitlink, protected path, manifest file and deleted test violations of an entry |
| `Ingest.IngestCheck.CheckExisting` | src/internal/verify/ingest.go:225-233 | a test file that the red commit had may not change |
| `Ingest.IngestCheck.CheckDiscovery` | src/internal/verify/ingest.go:234-242 | test dependency and discovery violations of an entry |
| `Ingest.IngestCheck.CheckSemantic` | src/internal/verify/ingest.go:251-324 | every changed protected key is found as a discovery change, and a dependency change where the table says so; which of them are reported is stated in `SemanticKeys` |
| `SemanticKeys.SemanticKeyRecordedIff` | src/internal/verify/ingest.go:209-324 | a changed key of an entry is reported by name exactly when it is the first changed one, the head entry is no gitlink, and neither whole-file protection nor a forbidden addition covers the path |
| `SemanticKeys.RangeNamesKeyIff` | src/internal/verify/ingest.go:40-97 | over a judged range the same holds for every changed path |
| `SemanticKeys.RangeReportsChangedKeys` | src/internal/verify/ingest.go:40-97 | a path with a changed key always has a discovery violation |
| `SemanticKeys.SecondKeyIsNotNamed` | src/internal/verify/ingest.go:180-187 | an entry with two changed keys of which only the first is reported |
| `SemanticKeys.WholeFileHidesKeys` | src/internal/verify/ingest.go:234-242 | an entry with changed keys in a file protected as a whole, of which none is reported |
| `Ingest.IngestCheck.CheckStatic` | src/internal/verify/ingest.go:335-366 | added lines that match a pattern of the path's class are reported with their line |
| `Ingest.IngestCheck.Entry` | src/internal/verify/ingest.go:209-247 | everything an entry violates is recorded, or the entry cannot be judged |
| `Ingest.CheckIngestion` | src/internal/verify/ingest.go:40-97 | judged exactly when the range is readable and small enough, with the violations of every changed path |
| `Integrity.FileStatuses` | src/internal/verify/green_derive.go:66-100 | intact exactly when the head has the recorded blob under the red mode and nothing flags the file |
| `Integrity.MapViolations` | src/internal/verify/green_derive.go:117-149 | findings and discovery changes of the violations, each discovery change once; unknown codes are an error |
| `Integrity.DeriveIntegrity` | src/internal/verify/green_derive.go:33-151 | the statuses and mapped violations of the range |
| `Integrity.NothingIsLost` | src/internal/verify/green_derive.go:117-149 | every violation is a finding, a discovery change or a flagged file |
| `Integrity.FlagsChangedManifestFiles` | src/internal/verify/ingest.go:209-220 | a judged range flags exactly the manifest files whose entry differs at its ends |
| `Integrity.IntactIff` | src/internal/verify/green_derive.go:66-100 | over the range from the red commit a file is intact exactly when its red entry is unchanged and has the recorded blob |
| `Integrity.JudgedCodesAreKnown` | src/internal/verify/green_derive.go:117-149 | the derivation understands every violation the ingestion check reports |
| `Integrity.ChangeIsFlagged` | src/internal/verify/ingest.go:40-97 | a chain that leaves a manifest file changed flags it in some step |
| `Integrity.EveryChangeIsFlagged` | src/internal/verify/ingest.go:40-97 | a step that changes a manifest file is flagged even if it is changed back |
| `Integrity.CleanChainIsIntact` | src/internal/verify/green_derive.go:66-100 | after a chain without violations a manifest file is intact exactly when its red blob is the recorded one |
| `Evidence.DecodeIdSet` | src/internal/verify/red.go:59-97 | a usable id set is strictly ascending and holds as many different ids as it counts |
| `Evidence.UniqueElements` | src/internal/verify/red.go:172-183 | appending without repeats keeps the elements, each once |
| `Ordering.SortedKeys` | src/internal/verify/red.go:185-192 | the ascending listing of a set |
| `Ordering.AscendingIsUnique` | src/internal/verify/red.go:185-192 | there is only one ascending listing of a set |
| `GreenRules.ReplayStatuses` | src/internal/verify/green_classify.go:422-434 | the status of every replayed test, unusable exactly on an unknown status or a repeated id |
| `GreenRules.GreenCheck.LoadRuns` | src/internal/verify/green_classify.go:89-103 | the head runs, unusable exactly without one or with a foreign commit |
| `GreenRules.GreenCheck.CheckCounts` | src/internal/verify/green_classify.go:120-143 | counts, report and exit code of every head run agree, and a dropped failure is noted |
| `GreenRules.GreenCheck.LoadTests` | src/internal/verify/green_classify.go:145-154 | the reports by id, unusable exactly on an unknown status or a repeated id |
| `GreenRules.GreenCheck.LoadSets` | src/internal/verify/green_classify.go:155-184 | the decoded id sets, unusable exactly when one is missing or two contradict |
| `GreenRules.GreenCheck.LoadManifest` | src/internal/verify/green_classify.go:185-199 | the manifest ids, unusable exactly when repeated or contradicted by the report |
| `GreenRules.GreenCheck.Load` | src/internal/verify/green_classify.go:75-200 | all facts, or an error exactly when one is unusable |
| `GreenRules.GreenCheck.G2Facts` | src/internal/verify/green_classify.go:241-274 | the tamper reasons of discovery changes, findings and foreign commits |
| `GreenRules.GreenCheck.RuleG2` | src/internal/verify/green_classify.go:277-319 | the tamper reasons in order, from the recomputed file statuses |
| `GreenRules.GreenCheck.RuleG3` | src/internal/verify/green_classify.go:322-352 | build, report and timeout reasons |
| `GreenRules.GreenCheck.RuleG4` | src/internal/verify/green_classify.go:355-391 | missing, skipped and failing manifest tests |
| `GreenRules.GreenCheck.RuleG4b` | src/internal/verify/green_classify.go:394-419 | a manifest test that does not pass in isolation |
| `GreenRules.GreenCheck.RuleG4c` | src/internal/verify/green_classify.go:437-464 | a manifest test that is not consistent |
| `GreenRules.GreenCheck.RuleG5` | src/internal/verify/green_classify.go:468-506 | failing other tests, new skips and protected ids |
| `GreenRules.GreenCheck.RuleG5b` | src/internal/verify/green_classify.go:510-522 | a base test that vanished or is skipped |
| `GreenRules.GreenCheck.RuleG6` | src/internal/verify/green_classify.go:526-551 | a required check that failed or did not run |
| `GreenRules.GreenCheck.RuleG8` | src/internal/verify/green_classify.go:562-573 | a truncated report without a protected test |
| `GreenRules.GreenCheck.RuleG9` | src/internal/verify/green_classify.go:578-605 | a change test that does not fail in the replay |
| `GreenRules.ClassifyGreen` | src/internal/verify/green_classify.go:20-53 | the loops compute the verdict: the first failing rule decides, all reasons are listed once in order |
| `GreenMeaning.GreenPassIff` | src/internal/verify/green_classify.go:20-53 | green_pass exactly when the facts are usable and: nothing protected was touched, all suites ran, every manifest and protected test is reported, present, passed and not skipped, manifest tests pass in isolation and repeatedly, change tests fail in the replay, no base test vanished unapproved or is skipped, other tests pass, checks passed, no stub is left |
| `GreenMeaning.GreenPassRunsSucceeded` | src/internal/verify/green_classify.go:120-143 | in a green_pass no run counts a failure, and every run with non-negative counts exited 0 |
| `GreenWitness.FailedRunInGreenPass` | src/internal/verify/green_classify.go:120-143 | a green_pass with a head run that exited 1, whose counts add up to a negative number |
| `GreenMeaning.DerivedFactsAreUntouchedIff` | src/internal/verify/green_classify.go:277-319 | G2 can use derived facts, and finds nothing exactly when the range has no violation, the red commit holds the manifest files, the head descends from it and no commit is foreign |
| `RedRules.RedCheck.CheckCriteria` | src/internal/verify/red.go:253-274 | criteria with known kinds and unique ids, a change criterion, and no foreign declaration |
| `RedRules.RedCheck.LoadSets` | src/internal/verify/red.go:275-289 | the decoded id sets |
| `RedRules.RedCheck.LoadTests` | src/internal/verify/red.go:290-299 | the reports by id |
| `RedRules.RedCheck.LoadScope` | src/internal/verify/red.go:300-313 | the changed paths |
| `RedRules.RedCheck.LoadRuns` | src/internal/verify/red.go:326-339 | base and head runs, with at least one base run |
| `RedRules.RedCheck.Resolve` | src/internal/verify/red.go:483-506 | the ids every declared name stands for |
| `RedRules.RedCheck.FindNew` | src/internal/verify/red.go:508-528 | N and M: absent at base, or declared, passing at base and in a changed file |
| `RedRules.RedCheck.CheckNew` | src/internal/verify/red.go:529-536 | a complete document reports every new test |
| `RedRules.RedCheck.StatusOf` | src/internal/verify/red.go:538-549 | the status at the head, presumed where unreported |
| `RedRules.RedCheck.Judge` | src/internal/verify/red.go:550-569 | whether a resolved test fails, passes or errs |
| `RedRules.RedCheck.JudgeCriteria` | src/internal/verify/red.go:558-593 | the outcome of every criterion |
| `RedRules.RedCheck.RuleR1` | src/internal/verify/red.go:353-405 | scope, deletion and stub reasons |
| `RedRules.RedCheck.RuleR2` | src/internal/verify/red.go:418-450 | a broken or flaky baseline |
| `RedRules.RedCheck.RuleR3` | src/internal/verify/red.go:452-481 | build, report and timeout reasons of the head |
| `RedRules.RedCheck.RuleR5` | src/internal/verify/red.go:602-617 | undiscovered, not new and skipped declared tests |
| `RedRules.RedCheck.RuleR6` | src/internal/verify/red.go:618-624 | a criterion without a name |
| `RedRules.RedCheck.RuleR7` | src/internal/verify/red.go:625-638 | new tests that err |
| `RedRules.RedCheck.RuleR8` | src/internal/verify/red.go:639-653 | removed and broken base tests of the head scope |
| `RedRules.RedCheck.RuleR9` | src/internal/verify/red.go:654-660 | a preservation criterion that does not pass |
| `RedRules.RedCheck.RuleR11` | src/internal/verify/red.go:662-677 | a hidden new or declared test |
| `RedRules.Collect` | src/internal/verify/red.go:699-714 | all reasons once in order, with R10's at its place |
| `RedMeaning.RedValidIff` | src/internal/verify/red.go:246-727 | red_valid exactly when the facts are usable, no generation rule objects and: scope and base are clean, the head ran, every declared name stands for reported tests in N or M that are not skipped, every new test is reported and none errs, base tests outside M in the head scope are present and not reported otherwise than passed, every change criterion has a test failing by assertion or allowed stub and every preservation criterion a passing one |
| `RedMeaning.KeptTestsCountAsPassed` | src/internal/verify/red.go:538-549 | corollary of the previous row: a kept base test has the head status passed, reported or not |
| `Witnesses.UnreportedTestInValidRed` | src/internal/verify/red.go:538-549 | a red_valid with a complete report in which a test that passed at the base is not reported |
| `GenerationRules.FindAcs` | src/internal/verify/generations_rules.go:206-217 | the criteria, in order, whose names stand for the id |
| `GenerationRules.ManifestFiles` | src/internal/verify/generations_rules.go:222-253 | the protected files of the scope, then the untouched previous ones |
| `GenerationRules.MapCriteria` | src/internal/verify/manifest.go:136-153 | every criterion some test carries, with those tests |
| `GenerationRules.ListStubs` | src/internal/verify/manifest.go:157-167 | the stubs with the criteria of their markers |
| `GenerationRules.JudgePreviousFiles` | src/internal/verify/generations_struct.go:312-360 | a previous file that is deleted or weakened, or that cannot be compared |
| `GenerationRules.RuleR12` | src/internal/verify/generations_struct.go:365-383 | previous tests stay present and declared, previous files keep what they had |
| `GenerationRules.RuleR1b` | src/internal/verify/generations_struct.go:220-305 | an existing Go test file outside the previous manifest that loses or changes more than the functions with a test of a change criterion |
| `GenerationRules.RuleR13` | src/internal/verify/generations_struct.go:385-436 | a previous test that is not approved and gone, or a previous file that changes more than the functions whose every previous test is approved |
| `GenerationRules.RuleR14` | src/internal/verify/generations_rules.go:154-202 | the protected-test list and every item fit the manifest |
| `GenerationRules.CheckGeneration` | src/internal/verify/generations_struct.go:172-205 | usable exactly when opening, previous manifest and contents agree |
| `GenerationRules.ClassifyRed` | src/internal/verify/red.go:226-727 | the loops compute the verdict without generation rules |
| `GenerationRules.ClassifyRedGen` | src/internal/verify/generations_rules.go:24-79 | the loops compute the verdict with every generation rule at its place |
| `GenerationRules.PlaceTests` | src/internal/verify/manifest.go:224-246 | criteria order, then declaration order, then the rest, each id once, and beside it the map from id to the criteria that name it |
| `GenerationRules.BuildTests` | src/internal/verify/manifest.go:247-267 | the records of the ordered tests, each with the criteria the placing loop noted |
| `GenerationRules.ManifestTests` | src/internal/verify/manifest.go:191-280 | the recorded tests with the noted criteria and the carried previous ones, or an error when one cannot be recorded |
| `GenerationRules.BuildManifest` | src/internal/verify/manifest.go:19-78 | the items of a red_valid classification, or an error when a check fails |
| `Manifests.OrderIsPermutation` | src/internal/verify/manifest.go:224-246 | ordering the tests loses and repeats none |
| `Manifests.NotedAreDeclared` | src/internal/verify/manifest.go:224-243 | the criteria the placing loop notes for an id are those R14 looks up on its own |
| `Manifests.BuiltIsChecked` | src/internal/verify/manifest.go:247-267 | so the builder records for a test what R14 checked |
| `Manifests.ProtectedIsNewIff` | src/internal/verify/manifest.go:203-223 | the builder protects exactly the classified new tests if and only if no test reported absent at base is in a base set without being modified |
| `Manifests.CarriedIsKept` | src/internal/verify/manifest.go:268-278 | without a repeated previous id both lists carry the same previous tests |
| `Manifests.ManifestAgreesWithR14` | src/internal/verify/generations_rules.go:154-202 | after red_valid the builder derives the tests R14 checked, with the same suites, kinds and statuses, and with the same criteria although each side computes them with its own loop |
| `Manifests.ItemChecksTransfer` | src/internal/verify/manifest_limits.go:162-216 | the checks of tests and mapping do not depend on the order of the tests |
| `Manifests.BuildSucceedsIff` | src/internal/verify/manifest.go:19-78 | after red_valid the builder succeeds exactly when the supersedes reason and header fields are acceptable, there is a file, and every file has a blob id |
| `Manifests.StrengthenedKeepsPrevious` | src/internal/verify/generations_struct.go:312-383 | corollary of a valid verdict and R12: a strengthened generation keeps every previous test and file |
| `Manifests.ApprovedKeepsTheRest` | src/internal/verify/generations_struct.go:385-436 | a valid generation with approved changes keeps every test that is not approved and everything but the wholly approved functions; no function with an unapproved test is among them |
| `Manifests.ExistingTestsAreKept` | src/internal/verify/generations_struct.go:220-305 | corollary of a valid verdict and R1b: other Go test files change only in functions with a test of a change criterion |
| `Successions.BuiltHoldsPrevious` | src/internal/verify/manifest.go:19-78 | the manifest built for a valid strengthened generation holds every path and every test id of the previous manifest |
| `Successions.SuccessionKeepsManifest` | src/internal/verify/generations_struct.go:312-383 | along generations each built on the manifest of the one before, the last manifest holds every path and test id of the first |
| `Successions.StepFollows` | src/internal/verify/generations_struct.go:312-360 | in one valid strengthened generation the content of a manifest file only grows |
| `Successions.StrengthenedGenerationsLoseNothing` | src/internal/verify/generations_struct.go:312-383 | along such generations every declaration, import and header of a file of the first manifest survives to the last |
| `Witnesses.GenerationIsValid` | src/internal/verify/generations_struct.go:312-383 | a strengthened generation that is red_valid, with a consistent base and unique previous tests |
| `Witnesses.ManifestIsBuilt` | src/internal/verify/manifest.go:19-78 | whose manifest is built |
| `Witnesses.SuccessionExists` | src/internal/verify/generations_struct.go:312-383 | and which meets the conditions of the theorems about successions |

## Left out

- Operating-system effects: Git subprocesses, process control, record directories, evidence framing, the network clients and providers.
- The Git command itself and `parseRaw`: a diff is the difference of two trees, and the text of a zero-context diff is given.
- The words of a bit vector: a vector is a sequence or an array of booleans; the order of the alphabet is not modelled.
- Machine integers: counters and counts are unbounded, so 64-bit wrap-around is not modelled; the line numbers of a diff are bounded where they are parsed.
- sha256, gzip, base64, regular expressions and schema string limits: their results are functions or values of the input, unusable ones `None`.
- Error message texts, JSON pointers and truncated details.
- YAML and JSON-Schema validation in Load, and its membership, guard argument, coverage, stray guard, projection and stall checks.
- LoadRules.CheckDeclarations: does not model the projection and stall checks, which compare further columns of the table.
- LoadRules.CheckRule: does not model the checks of guard arguments.
- LoadRules.CheckRules: does not model the checks of guard arguments.
- LoadRules.LoadTable: runs the declaration, rule, creation and graph passes; the schema, membership, coverage, projection and stall passes are not modelled.
- SampleTable.ConditionsAreConsistent: says that the table passes the modelled passes of Load, not all of them.
- LoadModes.EmptyModePassesLoad: says that the table passes the modelled passes of Load, not all of them.
- Trees.DeriveDiff: lists the entries in no particular order, where the source sorts them by path.
- Ingest.CheckIngestion: takes the loaded policy and the discovery of the head as given, and does not sort the violations.
- Ingest.IngestCheck.CheckSemantic: takes the comparison of the keys of two files as given.
- Ingest.IngestCheck.CheckStatic: takes the language of a path, its patterns and their matching as given.
- Integrity.DeriveIntegrity: takes foreign commits, head descent and remaining stub markers as given.
- GenerationRules.ListStubs: takes the criteria of a marker and the language of a stub as fields.
- GenerationRules.BuildManifest: takes the header, digest, discovery protection and supersedes checks as one condition each.
- Manifests.BuildSucceedsIff: takes the header and supersedes checks as one condition each.
- `Project`, `NextAllowedRoles`, `Rejected.Allowed` and the nil arguments of `Fire` and `Advance`: a base that knows nothing stands for a missing one.
- The TOML document level (table headers, arrays of tables, end of line checks) and the Makefile, INI and go.mod recognisers.
- Parsing Go source into a shape: the comparison starts from the shape.
- Parsing of the plan DAG file and the gate checks around the cycle check.
- The regular expression that finds the Go function of a test id: a function of the input.
- The judge subject of both classifiers.
- Message, duration and output fields of tests, runs and checks, which no modelled rule reads.
- The policy rows of `policy/merge.go` and `policy/invariants.go`; only the glob inclusion they call is modelled.
