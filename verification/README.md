# Verification of the proof search tools and of the build server

Dafny models of the parts of the repository with the most intricate behaviour, and proofs about them.
`dafny verify dfyconfig.toml` checks everything.

**The build server** `remake` (`coq-projects/coquelicot/remake.cpp`), an event-driven scheduler with one shared state.
`RemakeServer.Server` is that state as a class and its methods are the steps of the program. `RemakeState` states the
invariant of the server and proves step by step that it is kept; `RemakeStatus` and `RemakeLookup` compare the memoised
status lookup with a recursive definition; `RemakeLog` is the log of what the server does and says how the log explains every
status, so that nothing is done without work and nothing fails without a reason; `RemakeRun` follows one run move by move; `RemakeRules` is the resolution of
rules; `RemakeDatabase` is the text format of the dependency database, with its lexer.

**The linearizer** (`src/linearize_semicolons.py`) compiles compound tactics into scripts of single tactics and braces.
`FocusMachine` abstracts the proof assistant as a stack of lists of goals, `Tacticals` gives the meaning of compound
tactics and of their linearization, `LinearizerSteps` is the loop with its stack of pending commands as a machine, whatever
the commands are, and `Linearizer` says what the machine achieves.

**The proof search** (`src/search_file.py`): `ProofSearch` is the depth-first search with its history of statements, on the
same machine. `SearchWorkers` is the protocol of jobs, workers and collector as a state machine over interleaved steps.

**Smaller algorithms**: `LabelDistances` (`src/evaluator_report.py`), `KeywordTokenizer` (`src/tokenizer.py`), `BracketSplit`
(`src/util.py` and `src/proof_length.py`), `FilenameEscape` (`src/util.py` and `src/check_solutions.py`) and `ContextFilter`
(`src/context_filter.py`).

Where the code and its comments disagree the models follow the code:

- Generic rules: the comment says that shorter matches have priority. Within one rule the first improving pattern wins,
  so a longer stem can be chosen (`LongerStemCanWin`). The comment holds when in every rule the first pattern that matches has
  the shortest stem (`ShortestStemWins`), and a rule yields its shortest stem for every bound exactly then
  (`InnerLoopIsShortest`).
- `handle_clients`: the comment says that at least one process runs while requests are pending. That holds when a process
  ran before or no request of a script was waiting. In the remaining case it can fail: when every client waits, nothing
  changes, and a process runs afterwards exactly when one did before (`HandleClients`). The case is reached when a script
  exits without waiting for the answer to its request (`OrphanedRequestStalls`). With scripts that wait for their answers
  a process runs whenever the server waits, over every run (`ServerLoop`).
- The lifecycle of targets needs siblings that are never in conflicting phases. Siblings of a generic rule that the database
  does not know yet can violate this (`DisagreeingSiblings`); `StartAdvancesExactly` says when a start is harmless.
- `label_distances` is in source order, with the distances one expects, only for blocks whose tactics come before their
  sub-blocks (`DistancesAreRight`).
- The linearizer replaces a chain whose bracket stands behind several components by one with the bracket behind each goal
  of the first component. Such a chain keeps its meaning exactly when the components before the last one leave a single goal
  (`TrailingBracketProof`); otherwise a proof that goes through can be linearized into a script that fails
  (`TrailingBracketDiffers`).
- The dependency database is saved key by key, with the targets of the record of each key. The loop ends exactly when every
  key is among the targets of its own record or of the record of a smaller key met before (`SavingEndsExactly`).
- A search for a lemma that hits an anomaly is meant to be repeated once, but every exception of a search is turned into a
  kill, so that no lemma is searched twice (`SearchedOnce`).
- After a solution the search leaves some statements in the history: each caller cancels as many as it ran itself, so that as
  many as the last tactic needed are left, from the front of the solution (`Undone`).
- The search does not come back to a goal in focus that it has closed once, even if the rest of the proof then fails. It finds
  every proof within its limits unless it closes a goal on the way in another way first (`SearchIsComplete`), so it misses
  none where no state has more than one goal (`NothingPruned`), but can miss one otherwise (`PruningLoses`).
- A search width of one makes the computation of the tree size divide by zero before any search (`NumNodesInTree`).

## Model

| member | source | states |
|---|---|---|
| RemakeRules.TryPattern | coq-projects/coquelicot/remake.cpp:1839-1849 | comparing the two halves of a pattern finds a stem exactly when some nonempty stem turns the pattern into the target and that stem is shorter than the best so far; the tests made first skip only patterns that cannot do so |
| RemakeRules.FirstShorter | coq-projects/coquelicot/remake.cpp:1836-1857 | the inner loop stops at the first pattern of a rule that improves on the best stem, not at the best one |
| RemakeRules.FindGenericRule | coq-projects/coquelicot/remake.cpp:1830-1860 | the two nested loops compute the selection described by `SelectGeneric`: rule by rule, the first improving pattern, with targets and prerequisites instantiated |
| RemakeRules.SelectedMatches | coq-projects/coquelicot/remake.cpp:1830-1860 | the selected stem and rule come from a real match, and nothing is selected only when no pattern of any rule matches |
| RemakeRules.ShortestStemWins | coq-projects/coquelicot/remake.cpp:1825-1860 | when in every rule the first pattern that matches has the shortest stem of that rule, the stem is the shortest over all rules and the rule is the earliest one on ties, as the comment promises |
| RemakeRules.InnerLoopIsShortest | coq-projects/coquelicot/remake.cpp:1836-1857 | the inner loop yields the shortest stem of a rule, whatever the best stem so far, exactly when the first pattern of the rule that matches has it |
| RemakeRules.LongerStemCanWin | coq-projects/coquelicot/remake.cpp:1825-1857 | without that condition the comment is wrong: a rule with targets `%` and `a%`, in this order, matches `ab` with the longer stem |
| RemakeRules.SubstitutePattern | coq-projects/coquelicot/remake.cpp:1814-1823 | appends every word with its first `%` replaced by the stem |
| RemakeRules.FindRule | coq-projects/coquelicot/remake.cpp:1865-1903 | a specific rule with a script is returned as it is; otherwise a rule made from a generic rule that matches, if there is one; otherwise the specific rule, if any |
| RemakeRules.RuleMerges | coq-projects/coquelicot/remake.cpp:1791-1794 | the rule made from a generic rule builds its instantiated targets and asks for its instantiated prerequisites, followed by those of the specific rules of these targets, in order, up to the first one with a script; the stem is the selected one |
| RemakeRules.SpecificKept | coq-projects/coquelicot/remake.cpp:1888-1894 | where the generic rule has a single target no prerequisite of a specific rule without script is lost |
| RemakeRules.InstantiateReplaces | coq-projects/coquelicot/remake.cpp:1814-1823 | the first percent sign of a word, and no other, is replaced by the stem |
| RemakeRules.RuleListsTarget | coq-projects/coquelicot/remake.cpp:1865-1903 | the rule found for a target lists that target; none is found exactly when there is no specific rule and no generic pattern matches |
| RemakeRules.SingleTarget | coq-projects/coquelicot/remake.cpp:1888-1894 | the shortcut for a generic rule with one target gives what the general merge gives |
| RemakeStatus.UptodateMeansFresh | coq-projects/coquelicot/remake.cpp:1911-1993 | by the recursive definition a target is up-to-date exactly when every file reachable through dependencies exists and none is younger than the latest file of the group that depends on it; it is to be built exactly when this fails for its own group, and to be rechecked when it fails only further down |
| RemakeStatus.LatestIsLast | coq-projects/coquelicot/remake.cpp:1951-1965 | the latest time of a group is the time of one of its files or zero, and no file of it is younger |
| RemakeServer.Server.GetStatus | coq-projects/coquelicot/remake.cpp:1922-1993 | the memoised lookup returns the recorded entry, changes no earlier one, and on an acyclic database every entry that it adds is the verdict of the recursive definition |
| RemakeServer.Server.LookUp | coq-projects/coquelicot/remake.cpp:1922-1993 | every lookup is written down with the database it was made on, on which, if acyclic, what is new are the verdicts of the recursive definition; the first lookup of a run, unless all targets are forced to be obsolete, finds a target up-to-date exactly when it is fresh along every chain of dependencies, and to be built exactly when it is not fresh itself; earlier verdicts stay |
| RemakeStatus.SameVerdict | coq-projects/coquelicot/remake.cpp:1911-1993 | the recursive verdict does not depend on how the acyclic dependencies are ranked |
| RemakeLog.BooksLookedUp | coq-projects/coquelicot/remake.cpp:1922-1993 | what a lookup adds is explained by the lookup |
| RemakeServer.Server.GetGroupStatus | coq-projects/coquelicot/remake.cpp:1957-1993 | one lookup of a recorded target gives the whole group its verdict, missing files and dependencies included |
| RemakeServer.Server.CheckDependencies | coq-projects/coquelicot/remake.cpp:1967-1984 | whatever the order in which dependencies are visited, the verdict Todo, Recheck or Uptodate is the same |
| RemakeServer.Server.StatGroup | coq-projects/coquelicot/remake.cpp:1951-1965 | records the modification times of a group, the latest of them, and whether a file is missing |
| RemakeServer.Server.StillNeedRebuild | coq-projects/coquelicot/remake.cpp:2032-2054 | a script is spared exactly when its target was only to be rechecked and all recorded dependencies ended Uptodate; then the whole group is Uptodate |
| RemakeServer.Server.CompleteJob | coq-projects/coquelicot/remake.cpp:2066-2103 | ends a job: a target listed once is Uptodate exactly when its file still has the time it was last seen with, before the server started, and Remade otherwise; after a failure it is Failed, and its file stays in just that case |
| RemakeState.SettledOnce | coq-projects/coquelicot/remake.cpp:1999-2027 | what becomes of the status, the recorded time and the file of one target, whatever else the job lists |
| RemakeState.CompletedJudged | coq-projects/coquelicot/remake.cpp:2066-2103 | every end of a job judges its targets this way |
| RemakeState.CompletedEnds | coq-projects/coquelicot/remake.cpp:2066-2103 | the end of a job gives every one of its targets a final status, touches no other status and no other file |
| RemakeState.EndedKeepsInv | coq-projects/coquelicot/remake.cpp:2066-2103 | the end of a job keeps the invariant of the server and only advances statuses |
| RemakeServer.Server.RecordDependencies | coq-projects/coquelicot/remake.cpp:2193-2202 | all the targets of the rule get one new shared record that holds the registered prerequisites |
| RemakeState.RecordedKeepsInv | coq-projects/coquelicot/remake.cpp:2193-2202 | regrouping the targets of a live job keeps the invariant |
| RemakeServer.Server.RunScript | coq-projects/coquelicot/remake.cpp:2191-2304 | records the dependencies, then starts a shell, has nothing to run, or fails, and writes down which; it has nothing to run only if the script is empty or begins with a variable; running jobs and shells are counted together |
| RemakeServer.Server.PrepareScript | coq-projects/coquelicot/remake.cpp:2108-2123 | a script without variables is run as it is; the result is empty only if the script is or begins with a variable |
| RemakeLog.BooksLaunched | coq-projects/coquelicot/remake.cpp:2191-2304 | however the launch of a script ends, what becomes of its targets is explained by what was written down |
| RemakeLog.BooksEnded | coq-projects/coquelicot/remake.cpp:2066-2103 | the end of a job explains the final status of its targets, by an exit of a script that had started or another reason |
| RemakeState.LaunchedKeepsInv | coq-projects/coquelicot/remake.cpp:2191-2304 | each of the three outcomes of a launch keeps the invariant and only advances statuses |
| RemakeServer.Server.Start | coq-projects/coquelicot/remake.cpp:2312-2364 | starting a target fails without rule, puts a dependency client in front of the current one exactly when the rule has prerequisites, and launches the script otherwise, each with the status that goes with it |
| RemakeState.WithoutRuleKeepsInv | coq-projects/coquelicot/remake.cpp:2316-2323 | the job without targets that is left behind when no rule exists does no harm to the invariant |
| RemakeState.StartedKeepsInv | coq-projects/coquelicot/remake.cpp:2324-2331 | marking all the targets of a rule for a fresh job keeps the invariant, that job being the only one that nothing drives yet |
| RemakeState.StartAdvancesExactly | coq-projects/coquelicot/remake.cpp:2324-2331 | starting a target revokes no verdict and takes no target from another live job exactly when no sibling has got past Todo and Recheck |
| RemakeState.DisagreeingSiblings | coq-projects/coquelicot/remake.cpp:2193-2202 | the lookups of two unrecorded siblings can disagree, and building the one then takes the verdict on the other back: groups must be consistent |
| RemakeServer.Server.AttachClient | coq-projects/coquelicot/remake.cpp:2354-2363 | the dependency client asks for all prerequisites and stands in front of the current client |
| RemakeState.JobsAreExclusive | coq-projects/coquelicot/remake.cpp:2066-2103 | no target is in two live jobs, every live job has either one shell or one dependency client and never both, and a target is running exactly when a live job has it |
| RemakeServer.Server.CompleteRequest | coq-projects/coquelicot/remake.cpp:2370-2399 | answers a client: a reply frees a waiting slot and is logged, the job of a dependency client is resumed or fails; a success is allowed only when all that was asked for is done, a failure only when a target asked for has failed, or is still being built although nothing runs |
| RemakeServer.Server.ResumeJob | coq-projects/coquelicot/remake.cpp:2376-2383 | with every prerequisite done the script is launched, or the job ends as successful exactly when its recheck finds all dependencies Uptodate |
| RemakeServer.Server.AbandonJob | coq-projects/coquelicot/remake.cpp:2384 | a failed dependency client ends its job, for a reason that is written down |
| RemakeServer.Server.ReapFinished | coq-projects/coquelicot/remake.cpp:2438-2463 | exactly the finished targets leave the running ones and failures are remembered; the request is cut short exactly when one of them failed and failures are not tolerated; the two cases that must not occur do not |
| RemakeServer.Server.HandleTarget | coq-projects/coquelicot/remake.cpp:2466-2508 | takes one pending target and files it as running, done or failed, or starts it; no target that was being built ends; the request is given up when the target failed and failures are not tolerated, and goes on otherwise; the list of startable targets shrinks whenever something is started |
| RemakeServer.Server.StartPending | coq-projects/coquelicot/remake.cpp:2466-2508 | goes through the pending targets, first those of inserted dependency clients, until all are handled, one fails or the slots are full |
| RemakeServer.Server.HandleClient | coq-projects/coquelicot/remake.cpp:2433-2519 | one visit: either a target is started, or fewer clients remain to be visited; the client is answered or left with nothing pending; if nothing was answered or rebuilt on the way, all it waits for is being built; without toleration of failures no client with a failure stays; earlier clients are untouched |
| RemakeServer.Server.RemoveClient | coq-projects/coquelicot/remake.cpp:2511-2518 | answers a client and removes it; no slot appears and no other client moves; a request of the server itself is done then, or its failure is recorded |
| RemakeServer.PromiseKept | coq-projects/coquelicot/remake.cpp:2370-2399 | what the server itself asked for is still asked for, done, or reported as a failure after a client was answered |
| RemakeServer.Server.VisitClients | coq-projects/coquelicot/remake.cpp:2430-2520 | one pass over the clients, after which all of them are served unless the slots are full, and wait for targets being built unless something was answered or rebuilt, with the lexicographic measure that makes the scheduler stop |
| RemakeServer.Server.HandleClients | coq-projects/coquelicot/remake.cpp:2427-2536 | always terminates, also with cyclic dependencies; it is true exactly when running and waiting jobs differ, false only without clients and jobs; true means that a process runs if one did before or if no request of a script was waiting; if every client waits nothing changes, and a process runs exactly if one did before; unless the slots are full every client that remains has nothing pending, no failure and something running; a request is failed for a cycle only when every client waits and nothing runs; no slot appears |
| RemakeServer.HonestStays | coq-projects/coquelicot/remake.cpp:2417-2425 | clients that come from live scripts, one each, stay so while the scheduler runs, and are no more than the shells |
| RemakeRun.OrphanedRequestStalls | coq-projects/coquelicot/remake.cpp:2417-2419 | from the first state, move by move, the server gets to where it waits for nothing: one request is pending and no process runs, because a script exited without waiting for the answer to its request |
| RemakeServer.Server.FinalizeJob | coq-projects/coquelicot/remake.cpp:2741-2749 | a shell that exits ends its job on the files that its script left: each target listed once is judged by the time of its file, all are done or failed, one job less runs, the exit is written down, clients and records stay |
| RemakeState.WrittenKeepsInv | coq-projects/coquelicot/remake.cpp:2741-2749 | a script may leave any files, also others than its targets, as long as a file that appears or vanishes is recorded, is the only target of its rule, or has only siblings with a status |
| RemakeServer.Server.ReadNames | coq-projects/coquelicot/remake.cpp:2686-2729 | the targets read from a request become dependencies of the targets of its job even when the rest is ill-formed |
| RemakeServer.NamesAreAsked | coq-projects/coquelicot/remake.cpp:2686-2729 | a request is read up to the first record out of place: an empty name, a word that no variable precedes, or an unknown record; the targets are those asked for until then |
| RemakeServer.Server.AcceptClient | coq-projects/coquelicot/remake.cpp:2622-2736 | a well-formed request becomes the first client and one more waiting job; anything else leaves the clients as they are |
| RemakeState.ExtendedKeepsInv | coq-projects/coquelicot/remake.cpp:2691-2713 | dependencies that a running script adds to its record keep the invariant |
| RemakeState.ShellEndedKeepsInv | coq-projects/coquelicot/remake.cpp:2741-2748 | a shell that ends leaves exactly its own job without driver |
| RemakeServer.Server.constructor | coq-projects/coquelicot/remake.cpp:2817-2821 | the first state, without any request, satisfies the invariant |
| RemakeServer.Server.AddRequest | coq-projects/coquelicot/remake.cpp:2824-2838 | a request of the server itself joins behind all others |
| RemakeServer.Server.Reloaded | coq-projects/coquelicot/remake.cpp:2822-2833 | the second loop starts from the statuses, jobs, records and files that the first one left |
| RemakeState.InitialInv | coq-projects/coquelicot/remake.cpp:2817-2840 | the invariant holds before a loop whatever statuses are recorded, as long as nothing runs, rechecks can be decided and sibling groups are consistent |
| RemakeState.ResolvedRulesList | coq-projects/coquelicot/remake.cpp:1865-1903 | rule resolution itself makes a rule that is found list the target it was found for |
| RemakeState.LoopIsOver | coq-projects/coquelicot/remake.cpp:2822-2837 | a loop that has ended leaves the server ready for another one, also with other rules that keep the groups |
| RemakeServer.Server.Interrupt | coq-projects/coquelicot/remake.cpp:751-756 | an interruption only ends the toleration of failures |
| RemakeServer.Server.HandleEvents | coq-projects/coquelicot/remake.cpp:2760-2806 | any request and any number of exits keep the invariant and advance statuses; honest scripts, which wait for their answers, keep every request backed by a running script |
| RemakeServer.HonestExits | coq-projects/coquelicot/remake.cpp:2741-2749 | a script from which no request is waiting may exit without leaving one behind |
| RemakeServer.Server.ServerLoop | coq-projects/coquelicot/remake.cpp:2756-2810 | over every run: scripts start and requests succeed only once all they asked for is Uptodate or Remade, and that stays so, and requests fail only for a reason; running less waiting jobs never exceed the limit; the loop ends without clients and shells, and then all that the server itself asked for is done unless a failure is recorded; a failure is recorded exactly when such a request was answered with one; with honest scripts a process runs at each wait |
| RemakeServer.Server.Build | coq-projects/coquelicot/remake.cpp:2824-2838 | a request of the server itself and the loop that follows: when it ends without a recorded failure all the targets are done |
| RemakeServer.ServerMode | coq-projects/coquelicot/remake.cpp:2817-2858 | over every run of the program that ends without failure: the targets of the user are done, and the file with the rules was done before; it is rebuilt, and the rules loaded again, exactly when it was not fresh; a failure means that a request was answered with one; the books of both loops account for every status, and statuses only advance |
| RemakeLog.DoneForAReason | coq-projects/coquelicot/remake.cpp:205-238 | at any time, a target that is done was found so by a lookup, which without cycles gave the verdict of the recursive definition, or the last job made for it did its work: its script ended well after it had started, was empty, or was spared because all recorded dependencies were unchanged |
| RemakeLog.FailedForAReason | coq-projects/coquelicot/remake.cpp:2370-2399 | at any time, a target that has failed has no rule, or the last job made for it failed: its script did, could not be run, or lacked a prerequisite that failed or was waited for in a circle |
| RemakeDatabase.EscapeString | coq-projects/coquelicot/remake.cpp:819-849 | writes the name as it is, quoted, or quoted with escapes, within a buffer of twice its length |
| RemakeDatabase.Input.ExpectToken | coq-projects/coquelicot/remake.cpp:1059-1100 | finds the next word, skipping blanks and continued lines, or stops at what is none |
| RemakeDatabase.Input.ReadWord | coq-projects/coquelicot/remake.cpp:1105-1144 | reads a word, with quoted and unquoted stretches |
| RemakeDatabase.Input.ReadWords | coq-projects/coquelicot/remake.cpp:1231-1281 | reads words up to what is none; an opening parenthesis makes it read empty words for ever |
| RemakeDatabase.NameReadsBack | coq-projects/coquelicot/remake.cpp:1105-1144 | an escaped name is read back exactly when it is not empty and either quoted or free of blanks, line ends and parentheses and not starting with `=`, `+` or a pipe character |
| RemakeDatabase.LinesBack | coq-projects/coquelicot/remake.cpp:1422-1451 | loading written lines gives their records, later ones over earlier ones |
| RemakeDatabase.Database.LoadDependencies | coq-projects/coquelicot/remake.cpp:1422-1451 | the loop over the stream computes `LoadFrom`: the records, a failure at a malformed line, or no end |
| RemakeDatabase.Database.SaveDependencies | coq-projects/coquelicot/remake.cpp:1472-1493 | from a database on which it ends the loop takes the smallest key each time and empties the map, and loading the text gives the same map when records are shared by all their targets and names can be read back |
| RemakeDatabase.SavingEndsExactly | coq-projects/coquelicot/remake.cpp:1477-1485 | the saving loop ends exactly when no key that it comes to is missing from its own record |
| RemakeDatabase.SharedEnds | coq-projects/coquelicot/remake.cpp:1477-1485 | where the targets of a record share it, the loop ends exactly when every key is in its own record |
| RemakeDatabase.ServerRecordsCanBeSaved | coq-projects/coquelicot/remake.cpp:1472-1493 | the records of the server always meet the conditions under which saving ends and loses nothing |
| FocusMachine.ScriptFlattens | src/linearize_semicolons.py:155-170 | focus is bookkeeping: a script that runs with braces does the same to the flat list of goals without them |
| FocusMachine.DepthIsBalance | src/linearize_semicolons.py:155-170 | the depth of the focus stack is the number of open braces |
| Tacticals.LeadingAgrees | src/linearize_semicolons.py:276-347 | what the script of a chain does to a goal is what the chain does, when brackets follow the first component |
| Tacticals.RemaindersRun | src/linearize_semicolons.py:289-347 | the commands left for the goals together do what the rest of the chain does |
| Tacticals.TrailingBracket | src/linearize_semicolons.py:323-347 | for a chain that runs and has a bracket behind several components, the linearized chain does the same if the components before the last one leave a single goal, and fails otherwise |
| LinearizerSteps.Terminates | src/linearize_semicolons.py:148-359 | the loop ends for every proof and every behaviour of the tactics, also when brackets do not match the goals |
| LinearizerSteps.Smaller | src/linearize_semicolons.py:276-347 | what a command leaves to be queued is smaller than the command |
| Linearizer.OriginalLinProves | src/linearize_semicolons.py:148-359 | a proof that goes through still does so with the meaning of linearized chains, when every bracket follows the first component of its chain |
| Linearizer.TrailingBracketProof | src/linearize_semicolons.py:323-347 | a proof that goes through by a chain with a bracket behind several components does so with the meaning of linearized chains exactly when the components before the last one leave a single goal |
| Linearizer.TrailingBracketDiffers | src/linearize_semicolons.py:323-347 | a proof that goes through and on which the loop stops with an error: in `t; u; [a | b]` the case `a` is tried on both goals that `t` leaves |
| Linearizer.FocusNext | src/linearize_semicolons.py:165-196 | focusing the next goal and running its pending command first leaves the same to prove |
| Linearizer.ClosedMeaning | src/linearize_semicolons.py:155-206 | closing a level, focusing the next goal or giving pending commands back changes nothing that is left to prove |
| Linearizer.NextGoal | src/linearize_semicolons.py:165-206 | the loop body for a level without goals, with the error for an empty list of pending commands |
| Linearizer.CommandRuns | src/linearize_semicolons.py:276-357 | running the first component and keeping the rest pending leaves the same to prove as the whole chain |
| Linearizer.RanMeaning | src/linearize_semicolons.py:267-357 | where the bracket that follows has a case for each goal, running the first component and queueing the rest changes nothing that is left to prove |
| Linearizer.RunFirst | src/linearize_semicolons.py:267-357 | runs the first component and queues the rest, the first case of a bracket whatever the number of goals |
| Linearizer.StepMeaning | src/linearize_semicolons.py:148-359 | a step on matching brackets leaves as much to prove as before, and stops only where the proof cannot go on |
| Linearizer.SmoothRun | src/linearize_semicolons.py:148-359 | over any number of steps on matching brackets the loop ends with a complete proof exactly when the proof goes through |
| Linearizer.Flush | src/linearize_semicolons.py:157-164 | after the last goal only the ending is emitted |
| Linearizer.LinearizeProof | src/linearize_semicolons.py:148-359 | always ends; the script emitted is accepted so far, and on success completes the proof with balanced braces; a proof goes through with the meaning of linearized chains exactly when it succeeds and every bracket meets as many goals as it has cases; it succeeds on every proof that goes through and whose brackets lead |
| ProofSearch.TryPrediction | src/search_file.py:1068-1114 | a failed tactic changes nothing; otherwise the statements are the tactic, a `}` for each level it finished and a `{` when the goal that comes next is not alone in focus yet; unless the proof is complete one goal is in focus, alone; no goal is lost |
| ProofSearch.RefocusedRuns | src/search_file.py:1068-1114 | a tactic that runs can be followed by these braces, and the lowest depth on the way is the entry depth less the levels closed |
| ProofSearch.Coq.Cancel | src/search_file.py:1171-1176 | cancelling so many statements restores the history and the state from before them |
| ProofSearch.SearchGraph.MkQED | src/search_file.py:1017-1030 | reading the graph backwards gives the tactics from the root to the node |
| ProofSearch.Searcher.Credit | src/search_file.py:1238-1252 | distances follow the levels, and what is popped from the stack is added to the extra depth: stack and extra depth together grow by one step at most |
| ProofSearch.Searcher.Attempt | src/search_file.py:1236-1299 | what a tactic that ran means for the exploration: a solution, a context met before, a goal too big, a search below it or a cut; unless it ends in a solution, it is undone |
| ProofSearch.Searcher.Descend | src/search_file.py:1270-1288 | the search below a tactic passes up the solution or the subgoals closed, and is undone unless it found one |
| ProofSearch.Searcher.Search | src/search_file.py:1179-1312 | the result, and whether a node was cut at the depth limits, is the one of the recursive definition `Explore`, which has no history to undo; no solution leaves history and state as on entry; a solution is the tactics of the path and of the branch, and the branch completes the proof; the solved subgoals are the entry depth less the lowest depth reached on the reported branch; the distance stack is as long as the braces are deep, stack and extra depth never exceed the steps taken, paths stay within the limits; the number of calls is bounded by a tree |
| ProofSearch.SearchIsComplete | src/search_file.py:1179-1312 | whatever sequence of predictions completes the proof, each within the search width of its node, in a context that is new, not too big and within the depth limits, the search finds a solution, unless tactics beginning with an earlier prediction of a node on the way close the goal in focus; beyond the depth limits the cut is recorded |
| ProofSearch.NothingPruned | src/search_file.py:1277-1299 | where no state on the way has more than one goal nothing is pruned |
| ProofSearch.PruningLoses | src/search_file.py:1277-1288 | a proof within all limits that the search misses, because it does not come back to a goal it has closed |
| ProofSearch.SolutionReplays | src/search_file.py:1255-1257 | the tactics of a completing branch solve the flat list of goals without any brace |
| ProofSearch.GeometricSum | src/search_file.py:1053-1058 | the tree size is the geometric sum |
| ProofSearch.NumNodesInTree | src/search_file.py:1053-1058 | the quotient is the exact size of the tree; the assertions or the division fail exactly for no depth, a branching of one, or a size below one |
| ProofSearch.DfsProofSearch | src/search_file.py:1148-1340 | the status is a success for every lemma that a sequence of predictions within the limits completes, unless a goal on the way was closed in another way first, and in any case when no state on the way has more than one goal; a failure means that this holds beyond the depth limits too; a success lists tactics that replay to a complete proof; anything else leaves the history untouched; the calls are at most the nodes of the tree of attempts and hard limit |
| SearchWorkers.StepKeeps | src/search_file.py:340-538 | every step of every worker keeps the invariant |
| SearchWorkers.JobsConserved | src/search_file.py:340-538 | under every interleaving each job is in exactly one place: queued, in the hands of one worker, or done |
| SearchWorkers.SearchedTwiceAtMost | src/search_file.py:428-473 | no job is searched more than twice, whatever anomalies and kills occur, and the exit of a worker that cannot find its lemma is unreachable with jobs in file order |
| SearchWorkers.SearchesTheRightProof | src/search_file.py:376-400 | in every run the proof that is searched is the one the job was made from, exactly when no earlier proof of the file has the same statement |
| SearchWorkers.SearchedOnce | src/search_file.py:942-968 | as long as no search ends in an anomaly the searches of a job are as many as its reports, and at most one |
| SearchWorkers.CollectorGetsAll | src/search_file.py:613-645 | once all workers have left, the results are as many as the jobs and each job is among them once |
| SearchWorkers.NeverStuck | src/search_file.py:350-538 | a worker that has not died can go on without an anomaly |
| SearchWorkers.RunsEnd | src/search_file.py:350-538 | without anomalies on the way to a proof every interleaving is finite, with a bound on its steps |
| SearchWorkers.OutOfOrderIsLost | src/search_file.py:359-365 | with jobs out of file order a worker can leave a job unreported |
| LabelDistances.Labeller.CloseGoal | src/evaluator_report.py:275-285 | a closing brace numbers the segment from its end, after all that the block closed, and adds it to the block around |
| LabelDistances.Labeller.LabelDistances | src/evaluator_report.py:262-300 | the loop computes `RunFrom` on the three stacks, failing where a pop or the assertion does |
| LabelDistances.LabelsOfProof | src/evaluator_report.py:262-300 | on every balanced proof, with or without a closing command, the result is the labelling of its tree |
| LabelDistances.LabelsPermute | src/evaluator_report.py:262-300 | the output has each tactic as often as the proof, whatever the braces |
| LabelDistances.DistancesAreRight | src/evaluator_report.py:275-285 | the output is in source order with the number of tactics left to close each goal exactly when no tactic of a block is written after a sub-block with tactics |
| KeywordTokenizer.ReplaceKeepsText | src/tokenizer.py:310-315 | replacing a keyword by its token, from left to right and also for an empty keyword, keeps the decoded text |
| KeywordTokenizer.KeywordTokenizer.Mangle | src/tokenizer.py:299-308 | new characters get new ordinals unless the tokenizer is frozen; the two dictionaries stay inverse and clear of the keywords |
| KeywordTokenizer.KeywordTokenizer.DecodedMangled | src/tokenizer.py:299-308 | mangled text reads like the string with the unknown characters spelled out |
| KeywordTokenizer.KeywordTokenizer.ReplaceKeyword | src/tokenizer.py:313-315 | one pass cuts the tokens at the leftmost occurrences of the mangled keyword and puts the keyword token between the pieces; the decoded text stays, although mangling the keyword may add characters |
| KeywordTokenizer.ReplaceIsPass | src/tokenizer.py:313-315 | the replacement from left to right is such a pass, also for an empty keyword |
| KeywordTokenizer.GoneAfterPass | src/tokenizer.py:313-315 | after its own pass a keyword occurs nowhere |
| KeywordTokenizer.GoneStaysGone | src/tokenizer.py:313-315 | the passes of other keywords bring none back |
| KeywordTokenizer.KeywordTokenizer.ToTokenList | src/tokenizer.py:310-320 | unfrozen, or frozen with all characters of the string known, the tokens decode to the string; with known keywords they do so only then; no keyword is left in the tokens; a string that is a keyword, with no earlier keyword in it, becomes its one token; every token is below the next ordinal |
| KeywordTokenizer.KeywordTokenizer.ToString | src/tokenizer.py:322-330 | decodes tokens, failing exactly at a token without text |
| KeywordTokenizer.TextOfKnown | src/tokenizer.py:299-308 | mangled text reads like the string exactly when all characters are known |
| BracketSplit.SplitByCharOutsideMatching | src/util.py:286-324 | splits at the first separator where no bracket is open, and at none only if there is none |
| BracketSplit.MultisplitMatching | src/util.py:269-284 | the loop computes the pieces between such separators |
| BracketSplit.PiecesRejoin | src/util.py:269-284 | pieces and separators put together are the input, and no piece can be split |
| BracketSplit.CountOutsideMatching | src/proof_length.py:119-147 | counts the separators outside brackets; the assertion fails exactly when some bracket closes nothing |
| BracketSplit.CountIsPieces | src/proof_length.py:119-147 | where it does not fail, the count is the number of pieces less one |
| FilenameEscape.EscapesByCharacter | src/util.py:163-172 | both ways of escaping give every character its own code, in spite of the order of the passes |
| FilenameEscape.EscapeInjective | src/util.py:163-164 | different names have different escaped names |
| FilenameEscape.UnescapeEscape | src/check_solutions.py:62-63 | unescaping an escaped name gives the name with each `Zd` and `Zs` it had turned into a dot or a slash |
| FilenameEscape.RoundTrip | src/check_solutions.py:62-63 | the round trip gives the name back exactly when it contains neither `Zd` nor `Zs` |
| ContextFilter.SplitToplevel | src/context_filter.py:193-225 | the loop computes `Scan`: operators, groups without their parentheses, and what is between; it fails at a missing parenthesis |
| ContextFilter.PiecesFit | src/context_filter.py:193-225 | pieces are not empty and are together the specification less the parentheses of its groups |
| ContextFilter.EndlessExactly | src/context_filter.py:227-240 | the parser calls itself on its own argument exactly when that is a lone `%` or `+` |
| ContextFilter.AndMeans | src/context_filter.py:37-45 | the conjunction of filters holds when all of them do |
| ContextFilter.OrMeans | src/context_filter.py:48-56 | the disjunction of filters holds when one of them does |
| ContextFilter.ParsePrinted | src/context_filter.py:227-248 | a printed tree is parsed into the filter of the tree |
| ContextFilter.RoundTrip | src/context_filter.py:193-248 | for every and/or tree over valid plain atoms the parsed filter holds exactly where the tree does |
| ContextFilter.GroupedTree | src/context_filter.py:227-248 | parentheses around a whole specification of several atoms make no difference |
| ContextFilter.GroupedAtomFails | src/context_filter.py:227-237 | a plain atom in parentheses is split into the atom alone, but is not recognised unless the text with the parentheses is an atom itself, so that nodes need two children |

## Left out

- RemakeServer.Server.ServerLoop: covers any number of events, not the liveness of scripts: that a shell ever exits is not claimed.
- RemakeServer.Server.AcceptClient: assumes that a request names targets of the finite universe and a job whose script runs or is gone; variables sent along are checked for form and otherwise ignored.
- RemakeServer.Server.FinalizeJob: what a script writes is seen when it exits, and must not set siblings apart that are yet to be looked up, because the invariant would be false then.
- RemakeServer.Server.HandleClients: with requests waiting and nothing running before, true means a running process only as far as stated; a start can fail or not there.
- RemakeServer.Server.HandleEvents: requests name known targets and jobs with a script that runs or is gone, and scripts do not set siblings apart, as for the two methods it calls.
- RemakeServer.ServerMode: the reloaded rules keep the groups of targets; with other groups the statuses of the first loop need not fit, and `Reloaded` states what they have to satisfy.
- RemakeRun.OrphanedRequestStalls: the moves are those of a server whose scripts succeed, as many as the run needs.
- RemakeState.StartedKeepsInv: needs siblings whose phases agree, because the claim is false otherwise.
- Variables, assignments and the substitution in scripts: a script is arbitrary from its first variable on.
- Sockets, pipes, processes, signals inside a step, Windows, logging and the command line of the server: replaced by arbitrary requests, exits, file contents and failures to start a shell.
- The loading of the rule file: rules and records are inputs of the server.
- Shared records are modelled by their index in a list instead of reference counting.
- RemakeDatabase.Database.SaveDependencies: the order of the dependencies within a record is left open.
- RemakeDatabase.Database.LoadDependencies: variables and functions in the database end in a result of their own, because nothing that is saved contains any.
- RemakeDatabase.Input.ReadWords: the reading of empty words for ever is a result, not a loop without end.
- Linearizer.LinearizeProof: one goal at the start; goal selectors, alternatives, `..`, the `<..>` marker, comments, bullets, `Ltac` and the desugaring of `now`, `by` and commas are not modelled.
- Proof assistant: tactics are an arbitrary partial function from a goal to goals; shared variables between goals are not modelled.
- ProofSearch.TryPrediction: without shelved goals, the hammer and time limits.
- ProofSearch.Searcher.Search: anomalies that abort the whole search are not modelled; the predictor, the comparison of contexts and the check for too big ones are arbitrary functions of what they are given.
- ProofSearch.NumNodesInTree: exact arithmetic instead of floating point.
- ProofSearch.DfsProofSearch: starts at a proof without open brace, as a lemma that was just stated has.
- SearchWorkers.SearchedTwiceAtMost: also covers searches that end in an anomaly, which the code that starts a search never lets through.
- SearchWorkers.CollectorGetsAll: a queue is taken to be empty only when it is; an uncaught exception keeps its job for ever; the module prefix that goes with a result is not modelled.
- Axioms added before a search, resuming from files of earlier results and the report pages: input and output.
- KeywordTokenizer.KeywordTokenizer.ToTokenList: ordinals are unbounded numbers instead of code points.
- BracketSplit.SplitByCharOutsideMatching: disjoint classes of characters instead of regular expressions.
- BracketSplit.MultisplitMatching: disjoint classes of characters instead of regular expressions.
- BracketSplit.CountOutsideMatching: disjoint classes of characters instead of regular expressions, such as the brackets of two characters that its caller uses.
- ContextFilter.RoundTrip: which atoms are valid and what they mean are parameters.
- The search for a balanced prefix (`split_to_next_matching`), the neural models, training, scraping and the analysis scripts: they would add only easy members, or depend on libraries that are not part of this model.
