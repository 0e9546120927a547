# FormalUnified tooling core, modelled in Dafny

This project models the small pieces of executable logic in the FormalUnified architecture
repository and proves properties about them. There are five pieces.

- **Unified modelling tool** (`UnifiedModelingTool.py`). A Petri-net engine and a state-machine
  engine each create models, validate them and convert from the other theory. An "AI enhancement"
  step prunes unconnected net nodes and unreachable machine states. A tool object keeps a store of
  models by id. Modelled in `modeling_types.dfy`, `petri_net_engine.dfy`,
  `state_machine_engine.dfy`, `ai_enhancement.dfy` and `modeling_tool.dfy`. The store is a class
  whose methods update a map of models.
- **Verification engine** (`scripts/verification_engine.py`). A task scheduler holds a FIFO queue
  and a history. A rule manager looks up rules. A mock knowledge graph holds per-model contracts
  and verification status. Plug-ins are chosen by algorithm name, and the engine applies every
  rule of each queued task. Modelled in `verification_engine.dfy`, with classes for the
  scheduler, the knowledge graph and the engine. "What a task does to the results and the graph"
  is the function `RunRules`, and the methods are proved against it.
- **TODO scanner** (`tools/automation/todo_scan.py`). It picks candidate files from a directory
  walk, scans each file for marker lines and trims long lines. It counts hits per directory,
  sorted by count (stable for ties), and writes a Markdown report with at most 30 hot-spot lines.
  Modelled in `todo_scan.dfy`, over path values from `paths.dfy`.
- **Repository index** (`tools/automation/generate_index.py`). It lists files outside excluded
  directories and groups them by top-level directory. It writes one section per group in sorted
  key order; each section lists the group's files sorted by lower-cased path, at most 2000 of
  them. Modelled in `repo_index.dfy`.
- **Suggestion engine** (`visual_modeling_interface.py`, class `SuggestionEngine` only). The
  context chooses one of four catalogue lists. The list is filtered case-insensitively by the
  partial input and cut to five entries. Modelled in `suggestion_engine.dfy`.

`wrappers.dfy` (Option and Result), `seqs.dfy` (order-preserving filter, subsequences, take) and
`strings.dfy` (lower, strip, join, substring test and Python's string order) hold the shared
helpers.

Each method that runs a loop in the source is a Dafny method with a loop, proved equal to a
specification function or ghost predicate. The properties the source promises are then proved
about that specification.

Some source behaviour that the lemmas make explicit:

- Converting a state machine to a Petri net reads each transition's `name` key. The transitions
  that the Petri-net-to-state-machine conversion creates have no such key. So converting a net to
  a machine and back fails with `KeyError('name')` as soon as the machine has a transition
  (`NetMachineNetRoundTripFails`).
- When no place is marked, the Petri-net-to-state-machine conversion builds its initial state as
  `"s_" + states[0]['id']`. That state id already starts with `"s_"`, so the result is
  `"s_s_<place>"`, which no state declares. Validation then reports an undefined initial state
  (`UnmarkedNetInitialStateUndeclared`).
- `PetriNetEngine.convert_from` calls `_convert_from_workflow` for workflow models, but that
  method does not exist. It is modelled as the error `MissingConverter`.

## Model

| member | source | states |
|---|---|---|
| PetriNetEngine.CreateModel | FormalUnified/release/tools/UnifiedModelingTool.py:71-95 | The Petri-net model has id "petri_" + name + "_" + hash and theory PETRI_NET. Its places, transitions, arcs and initial marking are those of the specification's parameters. Its constraints are the specification's, it has no source model, it keeps the specification, and both statuses are "pending". |
| PetriNetEngine.ArcWarningsNameUnknownNodes | FormalUnified/release/tools/UnifiedModelingTool.py:120-131 | Every arc warning is an undefined-source or undefined-target finding, naming a node that is neither a place nor a transition. |
| PetriNetEngine.ArcWarningsEmptyIff | FormalUnified/release/tools/UnifiedModelingTool.py:120-131 | There are no arc warnings if and only if both ends of every arc are declared places or transitions. |
| PetriNetEngine.ArcWarningsCount | FormalUnified/release/tools/UnifiedModelingTool.py:123-131 | There is exactly one warning per undefined arc end. |
| PetriNetEngine.ValidateModel | FormalUnified/release/tools/UnifiedModelingTool.py:97-134 | The net is valid if and only if it has places and transitions. There is one error per missing list, in the source's order. The warnings are the arc warnings. The returned model records "valid" or "invalid". |
| PetriNetEngine.ConvertFromStateMachine | FormalUnified/release/tools/UnifiedModelingTool.py:147-216 | The result fails with KeyError('name') if and only if some transition has no name. Otherwise it is the converted model: one "p_" place per state and one "t_" transition per machine transition (guard defaulting to "true"). Each transition gets an in-arc and an out-arc of weight 1. One token goes on the initial state's place, when there is an initial state. It also fixes the id, specification, source link and statuses. |
| PetriNetEngine.ConvertFrom | FormalUnified/release/tools/UnifiedModelingTool.py:136-145 | A state machine is converted as above. A workflow fails because its converter is missing. Every other theory raises the unsupported-conversion error. |
| PetriNetEngine.PlaceOfDeclaredState | FormalUnified/release/tools/UnifiedModelingTool.py:150-156 | Every declared state x has a place "p_" + x in the converted net. |
| PetriNetEngine.ConvertedArcEndsKnown | FormalUnified/release/tools/UnifiedModelingTool.py:167-183 | If the machine's transitions name only declared states, every arc of the converted net joins declared nodes. |
| PetriNetEngine.ConvertedNetValidation | FormalUnified/release/tools/UnifiedModelingTool.py:147-183 | Such a converted net validates with no arc warnings. It is valid exactly when the machine has states and transitions. |
| StateMachineEngine.CreateModel | FormalUnified/release/tools/UnifiedModelingTool.py:221-244 | The machine model has id "sm_" + name + "_" + hash and theory STATE_MACHINE. Its states, transitions, initial state and final states are those of the parameters. Its constraints are the specification's, it has no source model, it keeps the specification, and both statuses are "pending". |
| StateMachineEngine.TransitionWarningsEmptyIff | FormalUnified/release/tools/UnifiedModelingTool.py:268-281 | There are no transition warnings if and only if every transition's from and to state is declared. |
| StateMachineEngine.ValidateModel | FormalUnified/release/tools/UnifiedModelingTool.py:246-284 | The machine is valid if and only if it has states. Errors: missing states, and an undeclared initial state (which leaves the machine valid). Warnings: missing transitions, then one per undeclared transition end. The model records its status. |
| StateMachineEngine.ArcEnds | FormalUnified/release/tools/UnifiedModelingTool.py:310-317 | Returns the input and output places of a transition, as the specification functions Inputs and Outputs give them. |
| StateMachineEngine.PairsOf | FormalUnified/release/tools/UnifiedModelingTool.py:320-328 | Returns the machine transitions for every input/output pair, in nested-loop order. |
| StateMachineEngine.InitialStateOf | FormalUnified/release/tools/UnifiedModelingTool.py:331-339 | The initial state is "s_" + the first place in the marking with a positive token count. Failing that it is "s_" + the first state's id, and otherwise "". |
| StateMachineEngine.ConvertFromPetriNet | FormalUnified/release/tools/UnifiedModelingTool.py:295-364 | The converted machine has one "s_" state per place and the transitions derived from the arcs. It also fixes the initial state, id, specification, source link and statuses. |
| StateMachineEngine.ConvertFrom | FormalUnified/release/tools/UnifiedModelingTool.py:286-293 | Only a Petri net is converted. Every other theory raises the unsupported-conversion error. |
| StateMachineEngine.PairTransitionsCount | FormalUnified/release/tools/UnifiedModelingTool.py:320-328 | A transition with i inputs and o outputs yields i * o machine transitions. |
| StateMachineEngine.RowTransitionsCount | FormalUnified/release/tools/UnifiedModelingTool.py:321-328 | One input place yields one machine transition per output place. |
| StateMachineEngine.PairTransitionsMembers | FormalUnified/release/tools/UnifiedModelingTool.py:320-328 | A machine transition is derived if and only if it comes from some input place and some output place. |
| StateMachineEngine.RowTransitionsMembers | FormalUnified/release/tools/UnifiedModelingTool.py:321-328 | The same, for one input place. |
| StateMachineEngine.SelfLoopIsInputOnly | FormalUnified/release/tools/UnifiedModelingTool.py:313-317 | Because of the if/elif, an arc from a node to itself counts only as an input, never as an output. |
| StateMachineEngine.ArcEndsMembers | FormalUnified/release/tools/UnifiedModelingTool.py:313-317 | x is an input exactly when an arc from x ends at the transition. x is an output exactly when an arc leaves the transition for x, and that arc does not also end at the transition. |
| StateMachineEngine.DerivedTransitionsAreNameless | FormalUnified/release/tools/UnifiedModelingTool.py:322-328 | Derived machine transitions carry a trigger but no name. |
| StateMachineEngine.NetMachineNetRoundTripFails | FormalUnified/release/tools/UnifiedModelingTool.py:163 | Net to machine and back fails with KeyError('name') whenever the machine has a transition. |
| StateMachineEngine.DoublePrefixUndeclared | FormalUnified/release/tools/UnifiedModelingTool.py:301 | If no place id is "s_" + the first place's id, no converted state is called "s_s_" + that id. |
| StateMachineEngine.UnmarkedNetInitialStateUndeclared | FormalUnified/release/tools/UnifiedModelingTool.py:338-339 | A net with places and no token converts to a machine whose initial state ("s_s_" + the first place id) is not declared. Validating it reports UndefinedInitialState, yet the machine is valid. |
| AIEnhancement.CollectEndpoints | FormalUnified/release/tools/UnifiedModelingTool.py:406-409 | The collected set is exactly the ids that some arc names as source or target. |
| AIEnhancement.CollectTransitionEndpoints | FormalUnified/release/tools/UnifiedModelingTool.py:414-419 | The collected set is exactly the arc endpoints that are transition ids. |
| AIEnhancement.OptimizePetriNet | FormalUnified/release/tools/UnifiedModelingTool.py:396-429 | The net keeps, in order, exactly the places and transitions that some arc touches. Everything else is unchanged. |
| AIEnhancement.PruningKeepsArcTouchedTransitions | FormalUnified/release/tools/UnifiedModelingTool.py:414-421 | If every transition has an incoming arc, pruning keeps all transitions. |
| AIEnhancement.ReachPass | FormalUnified/release/tools/UnifiedModelingTool.py:445-450 | One pass over the transitions only adds states reachable from the initial state. It reports a change exactly when it grew the set. Without a change the set is closed. |
| AIEnhancement.ReachableStates | FormalUnified/release/tools/UnifiedModelingTool.py:439-450 | The fixpoint loop ends with the least set that contains the initial state and is closed under the transitions. |
| AIEnhancement.LeastClosureUnique | FormalUnified/release/tools/UnifiedModelingTool.py:439-450 | That least closed set is unique. |
| AIEnhancement.LeastClosureIsReached | FormalUnified/release/tools/UnifiedModelingTool.py:444-450 | Every reachable state other than the initial one is the target of a transition from a reachable state. |
| AIEnhancement.OptimizeStateMachine | FormalUnified/release/tools/UnifiedModelingTool.py:431-459 | Keeps the states in the least closure and the transitions with both ends in it. |
| AIEnhancement.KeptTransitionsStayInside | FormalUnified/release/tools/UnifiedModelingTool.py:452-455 | If the machine's transitions target declared states, the pruned transitions target kept states. If they also start from declared states, the pruned transitions start from kept states. |
| AIEnhancement.OptimizeModel | FormalUnified/release/tools/UnifiedModelingTool.py:375-394 | Nets and machines are rewritten as above under id + "_optimized" with optimisation status "completed". Other theories are returned unchanged. |
| ModelingTool.UnifiedModelingTool.constructor | FormalUnified/release/tools/UnifiedModelingTool.py:464-470 | The tool starts with an empty store. |
| ModelingTool.UnifiedModelingTool.Store | FormalUnified/release/tools/UnifiedModelingTool.py:486 | Storing writes the model under its id. A new id is appended to the insertion order. The store invariant is kept. |
| ModelingTool.UnifiedModelingTool.CreateModel | FormalUnified/release/tools/UnifiedModelingTool.py:472-488 | An unsupported theory raises and leaves the store unchanged. Otherwise the engine's model is optimised and stored, and that optimised model is returned. A new id goes to the end of the insertion order; a known id keeps its place. |
| ModelingTool.UnifiedModelingTool.ConvertModel | FormalUnified/release/tools/UnifiedModelingTool.py:490-506 | An unsupported target raises. The target engine's conversion result, optimised, is stored and returned, and a new id goes to the end of the insertion order. Any error leaves the store unchanged. |
| ModelingTool.UnifiedModelingTool.ValidateModel | FormalUnified/release/tools/UnifiedModelingTool.py:508-515 | An unknown id raises. Otherwise the result is the engine's validation of the stored model, and the stored model records its status. |
| ModelingTool.UnifiedModelingTool.GetModel | FormalUnified/release/tools/UnifiedModelingTool.py:517-519 | Returns the stored model for a known id, and None otherwise. |
| ModelingTool.UnifiedModelingTool.ListModels | FormalUnified/release/tools/UnifiedModelingTool.py:521-523 | Returns every stored model exactly once, in insertion order. |
| VerificationEngine.NewTask | scripts/verification_engine.py:20-26 | A new task is PENDING with no result. |
| VerificationEngine.FirstZeroDivision | scripts/verification_engine.py:263-264 | Returns the index of the first division by zero, or None when there is none. |
| VerificationEngine.RuntimeReport | scripts/verification_engine.py:248-274 | The contract name defaults to "UnknownContract". A violation is reported exactly for model UMS-Module-C with contract NoZeroDivisor. It has exactly the four fields of the source, with the divide-by-zero operation and the source's details text. Every other call reports exactly `contract_violated: False` and the contract name. |
| VerificationEngine.RuntimeExecute | scripts/verification_engine.py:248-274 | The operation loop returns the same report. |
| VerificationEngine.RuleManager.GetRule | scripts/verification_engine.py:65-67 | Returns the rule for a known id, and None otherwise. |
| VerificationEngine.TaskScheduler.constructor | scripts/verification_engine.py:78-81 | The scheduler starts with an empty queue and an empty history. |
| VerificationEngine.TaskScheduler.SubmitTask | scripts/verification_engine.py:83-86 | Appends the task to the back of the queue. |
| VerificationEngine.TaskScheduler.GetNextTask | scripts/verification_engine.py:88-96 | An empty queue gives None. Otherwise it pops the front task and marks it RUNNING. |
| VerificationEngine.TaskScheduler.CompleteTask | scripts/verification_engine.py:98-103 | Marks the task COMPLETED with the result and records it in the history under its id. |
| VerificationEngine.UpdateStatus | scripts/verification_engine.py:135-145 | Only a known model changes: its status for the rule becomes COMPLETED with the result, and its contracts stay. An unknown model leaves the database unchanged. |
| VerificationEngine.KnowledgeGraphService.constructor | scripts/verification_engine.py:110-129 | The graph starts with the mock database (UMS-Module-B and CounterModel). |
| VerificationEngine.KnowledgeGraphService.GetModelContracts | scripts/verification_engine.py:131-133 | Returns the model's contracts, and None for an unknown model. |
| VerificationEngine.KnowledgeGraphService.UpdateVerificationStatus | scripts/verification_engine.py:135-145 | The database becomes UpdateStatus of the old one. |
| VerificationEngine.RunRulesResults | scripts/verification_engine.py:184-208 | The task results hold an entry exactly for the task's known rule ids. Each entry is the plug-in's result, a FAILED entry for an exception, or a SKIPPED entry when no plug-in exists. |
| VerificationEngine.RunRulesGraph | scripts/verification_engine.py:184-208 | After a task, only the task's model changes. It keeps its contracts and records exactly the rules whose plug-in returned, each with the returned result. |
| VerificationEngine.RunRulesOtherModels | scripts/verification_engine.py:184-208 | A task keeps the set of models and every model other than its own. |
| VerificationEngine.RunRulesModelEntry | scripts/verification_engine.py:197-204 | The task's own model records exactly its rules whose plug-in returned. Other statuses and the contracts stay. |
| VerificationEngine.MissingPluginIsSkipped | scripts/verification_engine.py:191-195 | A rule without a plug-in is reported as skipped with the source's reason text, and it never reaches the knowledge graph. |
| VerificationEngine.Engine.constructor | scripts/verification_engine.py:157-176 | The engine registers the four default plug-ins under their algorithm names. |
| VerificationEngine.Engine.RegisterPlugin | scripts/verification_engine.py:165-168 | Registering adds or replaces the plug-in for the algorithm. |
| VerificationEngine.Engine.RunSingleTask | scripts/verification_engine.py:178-210 | An empty queue changes nothing. Otherwise it pops the front task, stores it COMPLETED with the results RunRules gives, and the graph becomes RunRules' database. |
| VerificationEngine.Engine.RunAllTasks | scripts/verification_engine.py:212-219 | Ends with an empty queue. The history and the graph are exactly what RunTasks gives: the queued tasks run front to back, each on the graph the tasks before it left. Every previously queued task is COMPLETED in the history, and no history entry is lost. |
| VerificationEngine.RunTasksHistory | scripts/verification_engine.py:178-219 | After the queue is worked through, the history holds exactly its old ids and the queued ids. An id that was not queued keeps its old entry. Every queued task is COMPLETED with a result. |
| VerificationEngine.RunTasksLastWins | scripts/verification_engine.py:98-102 | For an id queued more than once, the history keeps the last task, completed with the results its rules gave on the graph the earlier tasks left. |
| VerificationEngine.RunTasksGraph | scripts/verification_engine.py:178-219 | Working through the queue keeps the set of models in the graph, and a model that no task targets keeps its entry. |
| TodoScan.Suffix | tools/automation/todo_scan.py:75 | Path.suffix: either "" or the name's final part from its last dot. That part is at least two characters, contains no further dot, and does not take up the whole name. Conversely, when the last dot is neither the first nor the last character, the suffix is the name from that dot. |
| TodoScan.CandidateFiles | tools/automation/todo_scan.py:89-103 | Keeps, in walk order, exactly the regular files with a supported suffix (compared lower-cased) and no excluded ancestor directory. |
| TodoScan.Snippet | tools/automation/todo_scan.py:115-117 | Returns the stripped line when it is at most 300 characters. Otherwise its first 300 characters followed by " …". |
| TodoScan.ReplaceBackslashes | tools/automation/todo_scan.py:118 | The path keeps its length and contains no backslash. Each backslash becomes "/" in the same position, and every other character is unchanged. |
| TodoScan.ScanFile | tools/automation/todo_scan.py:106-119 | An unreadable file gives no hits. Otherwise the hits are those of the line scan. |
| TodoScan.ScanHitsAreMarkedLines | tools/automation/todo_scan.py:112-118 | Every hit is built from a marked line and carries that line's 1-based number. |
| TodoScan.ScanLinesIncrease | tools/automation/todo_scan.py:112-118 | Hit line numbers strictly increase. |
| TodoScan.ScanMarkedLinesAreHits | tools/automation/todo_scan.py:112-118 | Every marked line yields a hit. |
| TodoScan.HitsOfFile | tools/automation/todo_scan.py:106-119 | The hits of a file are exactly its marked lines, in order. Each hit carries the marker found, the trimmed snippet (at most 302 characters) and the path with forward slashes. |
| TodoScan.ParentDir | tools/automation/todo_scan.py:125 | The parent of a path without "/" is ".". A path whose only "/" is its first character has parent "/". Otherwise the parent is the prefix before the last "/". |
| TodoScan.FirstAppearances | tools/automation/todo_scan.py:123-126 | The distinct directories, each once, exactly those that occur. They are ordered by the position of their first hit. |
| TodoScan.TallyFacts | tools/automation/todo_scan.py:123-126 | The counting loop gives one entry per directory, in first-seen order. Each count is the number of hits in that directory, and the counts sum to the number of hits. |
| TodoScan.SortByCount | tools/automation/todo_scan.py:127 | Sorting by count, descending, gives a permutation whose counts do not increase. |
| TodoScan.SortIsStable | tools/automation/todo_scan.py:127 | Entries with equal counts keep their first-seen order. |
| TodoScan.AggregateByDirectory | tools/automation/todo_scan.py:122-127 | The returned counts are the sorted tally of the hits' parent directories. |
| TodoScan.AggregateOrder | tools/automation/todo_scan.py:122-127 | The counts do not increase along the result, and they sum to the number of hits. |
| TodoScan.AggregateCounts | tools/automation/todo_scan.py:122-127 | Each entry counts exactly the hits in its directory, and every hit's directory appears. |
| TodoScan.AggregateTies | tools/automation/todo_scan.py:122-127 | Among equal counts the order is that of the directories' first appearance. |
| TodoScan.HotspotSection | tools/automation/todo_scan.py:146-153 | The report header followed by at most 30 directory lines. |
| TodoScan.DetailSection | tools/automation/todo_scan.py:154-157 | One detail line per hit, after the section heading. |
| TodoScan.WriteOutputs | tools/automation/todo_scan.py:130-158 | The JSON total is the number of hits, its items are the hits, and its counts are the sorted tally. The Markdown is the header, the first 30 hot-spot lines, the detail heading and one line per hit: 7 + min(directories, 30) + hits lines. |
| RepoIndex.ListAllFiles | tools/automation/generate_index.py:34-47 | Keeps, in walk order, exactly the non-directory entries with no excluded ancestor directory. |
| RepoIndex.GroupByTopLevel | tools/automation/generate_index.py:50-61 | There is a group exactly for each top-level name that some file under the root has; files outside the root are dropped. Each group lists its files in input order. |
| RepoIndex.GroupMembership | tools/automation/generate_index.py:52-60 | A file is in a group if and only if it lies under the root and its first relative part is the key. |
| RepoIndex.GroupKeepsOrder | tools/automation/generate_index.py:52-60 | Each group is a subsequence of the input files. |
| RepoIndex.SortKeys | tools/automation/generate_index.py:72 | The keys in strictly increasing string order, each exactly once. |
| RepoIndex.Least | tools/automation/generate_index.py:72 | The least key of a non-empty set. |
| RepoIndex.InsertByKeyFacts | tools/automation/generate_index.py:74 | Inserting adds exactly the file, and an insertion into a list sorted by the key keeps it sorted. |
| RepoIndex.SortByFacts | tools/automation/generate_index.py:74 | Sorting by a string key yields a permutation of the input, sorted by that key. |
| RepoIndex.InsertByKeyKeepsTies | tools/automation/generate_index.py:74 | Inserting a file puts it before every file with the same key. |
| RepoIndex.SortByIsStable | tools/automation/generate_index.py:74 | Files with equal keys keep their input order. |
| RepoIndex.SortFilesFacts | tools/automation/generate_index.py:74 | Sorting a group yields a permutation of it, sorted by lower-cased path. |
| RepoIndex.SortFilesIsStable | tools/automation/generate_index.py:74 | Files with the same lower-cased path keep their input order. |
| RepoIndex.ListedFacts | tools/automation/generate_index.py:74-75 | A section lists min(n, 2000) of the group's files, all from the group and sorted. A group of at most 2000 files is listed in full. No file left out has a smaller key than a listed one. |
| RepoIndex.FileLines | tools/automation/generate_index.py:75-77 | One "- <relative path>" line per listed file. |
| RepoIndex.SectionLines | tools/automation/generate_index.py:73-78 | The heading, the listed files and a blank line. |
| RepoIndex.WriteSections | tools/automation/generate_index.py:69-78 | The header followed by each key's section, in the given order; the loop adds one key's section at a time. |
| RepoIndex.WriteRepoIndex | tools/automation/generate_index.py:64-80 | The sections appear once per group, in strictly increasing key order, after the header. |
| SuggestionEngine.Suggest | FormalUnified/release/tools/visual_modeling_interface.py:1131-1135 | min(5, kept) entries, where the kept entries are the matching ones (every one for an empty input). They are exactly the entries kept from some prefix of the list, so they are the first matches in list order. Each matches a non-empty input case-insensitively. An empty input gives the list's first five. A result shorter than five holds every matching entry. |
| SuggestionEngine.GetSuggestions | FormalUnified/release/tools/visual_modeling_interface.py:1118-1135 | The same as Suggest, for the catalogue list the context chooses: the first min(5, kept) entries it keeps, in list order. |
| SuggestionEngine.SuggestionsAreSubsequence | FormalUnified/release/tools/visual_modeling_interface.py:1110-1135 | The suggestions keep the catalogue's order. |
| SuggestionEngine.ChosenPrecedence | FormalUnified/release/tools/visual_modeling_interface.py:1122-1129 | element wins over relationship, which wins over pattern, which wins over language. A context with none of them gives no suggestions. |

## Left out

- `hash(specification.name)` is salted per process, so the engines take the hash text as a parameter (`nameHash`).
- Model contents are Python dictionaries. They are modelled as a Petri net, a state machine, or an opaque content of another shape, and the wrong shape reads as empty, as `.get(key, [])` does. A missing mandatory key such as a state's `id` is not modelled. The one missing key that a tool path really produces is a transition's `name`, and that one is modelled.
- `create_model` of the workflow, temporal-logic and other theories, `export_model`, `import_model` (JSON/YAML) and `main` are outside the modelled core.
- Python objects are shared by reference: `validate_model` marks the stored model itself, and a model passed to `convert_model` may be one already in the store. The model works on values and writes the validation status back into the store explicitly.
- Logging, printing and `print_db` are left out.
- VerificationEngine: a task is a Python object mutated in place. `get_next_task` and `complete_task` change the very object the submitter holds and `_task_history` keeps (scripts/verification_engine.py:94, 98-102). The model passes tasks as values, so a caller's later view of its own task object is not modelled.
- VerificationEngine: `task_results` is a dict, whose insertion order follows the rule ids. The model keeps it as a map, so that order is not represented.
- RuleManager: reading the YAML rule file is I/O. Its constructor takes the loaded rules as a map.
- The static-analysis, deductive-verification and model-checking plug-ins call a solver or only mock results. They are plug-in parameters: functions from model id and parameters to a returned value or a raised message. Only the runtime-verification plug-in is modelled in full.
- Values are a small JSON-like datatype. Python's `try/except` around a plug-in is the `Raised` outcome.
- TodoScan: the regular expression `MARKER_REGEX` is a parameter `find`, returning the first match or nothing. The directory walk (`rglob`), `is_file`/`is_dir`, file reading and `splitlines` are inputs. `OSError` during the walk is not modelled. An unreadable file is `content == None`.
- RepoIndex.ListAllFiles: `is_dir()` raising `OSError` or `PermissionError` makes the source skip that entry (tools/automation/generate_index.py:45-46). The model takes the walk as an input with each entry's kind known, so an entry that cannot be inspected is taken to be absent from that input.
- TodoScan.ScanFile: the source's UTF-8 decoding with errors ignored is not modelled; lines arrive as strings.
- Strings.Lower and Strings.Strip handle only ASCII letters and whitespace; Python's Unicode case folding and whitespace classes are wider.
- Paths are POSIX part sequences. Windows drive letters and `Path` normalisation are not modelled.
- TodoScan.ParentDir models `str(Path(file).parent)` on slash-separated text without normalising repeated slashes.
- RepoIndex.WriteRepoIndex requires every listed file to lie under the root. The source raises ValueError from `relative_to` otherwise, which `group_by_top_level` output never triggers.
- The JSON text and Markdown are modelled as the data and the list of lines; `json.dumps`, `"\n".join` and writing the files are not.
- The Python dict order of `groups` is not observable in the index, because keys are sorted first.
- RepoIndex.WriteRepoIndex: the inner per-file loop is the method `SectionLines`, proved equal to the function `Section`. The outer loop `WriteSections` appends `Section` values directly rather than calling that method, because a function parameter cannot call a method.
- SuggestionEngine: `context` is modelled as a string, so `in` is a substring test. A list context would test membership instead. `context_history` is never used and is left out.
