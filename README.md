# sworkflow dependency engine, modelled in Dafny

sworkflow submits a suite of Slurm batch jobs in an order that respects their
dependencies. The user gives a dependency map: task name to a Slurm dependency
expression such as `afterok:A:B+10,afterany:C_3?after:D`. The map says which
tasks must run before which. sworkflow then:

1. Derives a graph from the expressions.
2. Orders the tasks topologically.
3. Turns each task's command into an `sbatch --parsable` command. A task with
   dependencies also gets a `--dependency=` option whose task names are
   `{name}` placeholders.
4. Submits the tasks in order. Each placeholder is filled with the job id
   that the scheduler returned for that name earlier in the pass.
5. Asks `sacct` for the job states.

An older engine, `sDepend`, does the same with a slightly different keyword set.
It puts the ids in directly instead of going through placeholders.

The model is split into these files:

- `wrappers.dfy`: `Option`, `Result` and the exceptions of the core as an
  `Error` datatype. `MapResult` is a loop that stops at its first failure.
- `text.dfy`: Python's `str.split`, `str.join`, `str.replace` and `str.strip`,
  and the `re.split` over a character class.
- `ordering.dfy`: the contract of `graphlib.TopologicalSorter(...).static_order()`,
  and an implementation of it by Kahn's algorithm proved against that contract.
- `ordered_map.dfy`: a dictionary that keeps insertion order, as the job-id
  registry does.
- `commands.dfy`: `list.insert`, and the insertion of `sbatch` and `--parsable`
  that both engines perform.
- `utils.dfy`: `keywords`, `as_dict`, `as_tuple` and `task_ordering` from
  `sworkflow/utils.py`.
- `placeholders.dfy`: `_formatted` and `as_placeholder`.
- `templates.dfy`: `str.format_map` with `Default` (`__missing__`) over the
  templates that `as_placeholder` builds.
- `status.dfy`: reading the `jobid|state` report of `sacct` (`splitlines`,
  `strip`, `split('|')`, `dict`).
- `suite.dfy`: the `Suite` class. Its fields are `dependency`, `jobs`,
  `jobIds`, `jobTemplate` and `status`. Its methods `PrepareJobs`, `Submit` and
  `UpdateStatus` update those fields in place.
- `sdepend.dfy`: the legacy module. It holds `is_valid`, `transform`,
  `task_ordering` and `submit`, plus the `SDepend` class with
  `update_dependency`, `format_task`, `submit` and `process`.

Loops in the source are methods with loop invariants. Each method is proved
equal to a specification function (`AsDict`, `AsPlaceholder`, `Transform`,
`RecordStates`, and so on), and the lemmas state what those functions promise.
The external processes become function parameters:

- `submitter`: `sbatch`, or the dry-run stand-in. `None` means the process failed.
- `sacct`: the status query.

Two details of the source that the model keeps:

- Legacy keywords. `sdepend.py:33` leaves out `afterburstbuffer`, which the
  keyword set at `utils.py:9-10` has, so the legacy engine treats it as a task
  name. See `Legacy.KeywordsDiffer`.
- Unknown placeholders. `Default` (`utils.py:124-126`) gives back `{name}` for
  a name without an id, but `format_map` still fails on an empty or all-digit
  field name, on a field name holding `.`, `[`, `!` or `:`, and on a lone `}`.
  See `Templates.Instantiate`.

## Model

| member | source | states |
|---|---|---|
| Utils.ParseReferenceMeaning | sworkflow/utils.py:24-27 | a token is accepted iff its separator (`+` when present, else `_`) occurs exactly once; the parsed name and suffix spell the token again; `+` takes precedence over `_`; neither part contains the separator |
| Utils.SplitOnce | sworkflow/utils.py:25 | `tok.split(sep)` unpacks into two values iff `sep` occurs exactly once, and then the halves surround the one separator |
| Utils.ParseReferenceText | sworkflow/utils.py:24-27 | stripping a suffix loses nothing: name followed by suffix is the original token |
| Utils.RefName | sworkflow/utils.py:24-28 | the name kept for a token is the parsed reference's name, and the only error is the ValueError of a second separator |
| Utils.NonKeywords | sworkflow/utils.py:21-23 | the kept tokens are exactly the tokens that are not keywords, none of them a keyword, each non-keyword as often as in the input, in input order (a subsequence) |
| Utils.PredecessorsMeaning | sworkflow/utils.py:18-28 | an expression's predecessors are, one for one and in order, the names of its non-keyword tokens cut at `,`, `?` and `:`; it fails with ValueError iff one such token has a doubled separator |
| Utils.KeywordNameHadSuffix | sworkflow/utils.py:22-28 | a predecessor that is a keyword can only come from a token that carried a `+` or `_` suffix (the keyword test runs before the suffix is cut) |
| Utils.KeywordWithSuffix | sworkflow/utils.py:22-25 | conversely, `after+5` passes the keyword test and yields the predecessor `after` |
| Utils.EmptyExpressionPredecessor | sworkflow/utils.py:20-28 | an empty expression yields one predecessor, the empty name |
| Utils.GraphKeys | sworkflow/utils.py:17-29 | a task is a key of `as_dict` iff its expression has a token that is not a keyword; keyword-only expressions give no key |
| Utils.AsDict | sworkflow/utils.py:13-29 | the loop over the dependency map builds exactly the graph `DependencyGraph`, or fails with its error |
| Utils.PredecessorsOf | sworkflow/utils.py:20-28 | the inner loop appends exactly `Predecessors(value)` and stops at the first ValueError |
| Utils.PrefixFailure | sworkflow/utils.py:21-28 | a ValueError on a prefix of the tokens is a ValueError on the whole expression |
| Utils.OrderCoversGraph | sworkflow/utils.py:82-83 | a topological order of the `as_dict` graph lists every task and every predecessor, each predecessor before its dependants |
| Utils.TaskOrdering | sworkflow/utils.py:78-83 | the ordering fails with ValueError when `as_dict` does; otherwise it succeeds iff the graph is acyclic, is then a topological order, and otherwise raises CycleError |
| Utils.JobTupleShape | sworkflow/utils.py:38-46 | `as_tuple` keeps the dependency type of each alternative first, then one name per reference with its suffix cut |
| Utils.AsTuple | sworkflow/utils.py:32-47 | every task gets the concatenated entries of its `,`/`?` alternatives; a ValueError in any task fails the call with that error |
| Utils.TupleEntriesOf | sworkflow/utils.py:35-46 | the loop over one expression's alternatives equals `TupleEntries` |
| Utils.JobTupleOf | sworkflow/utils.py:38-46 | the loop over one alternative equals `JobTuple` |
| Utils.NamesOf | sworkflow/utils.py:41-46 | the loop over the references of one alternative equals mapping `RefName` with first-failure semantics |
| Utils.ConcatSnoc | sworkflow/utils.py:40-46 | appending one alternative's entries extends the task's list by exactly those entries |
| Ordering.TopologicalOrder | sworkflow/utils.py:83 | Kahn's algorithm returns an order iff the graph has no cycle; that order lists every node once with predecessors first; otherwise CycleError |
| Ordering.TopologicalOrderAcyclic | sworkflow/utils.py:83 | a graph that has a topological order has no cycle |
| Ordering.StuckIsCyclic | sworkflow/utils.py:83 | when unemitted nodes remain and none is ready, the graph has a cycle |
| Ordering.EmitReady | sworkflow/utils.py:83 | emitting a ready node keeps the partial order topological and complete over what was emitted |
| Ordering.PredecessorIndex | sworkflow/utils.py:83 | in a topological order each predecessor of a task sits at an earlier index |
| Commands.Insert | sworkflow/suite.py:71 | `list.insert` puts the element at the index, or at the end when the index is past the end; the elements before it are kept and the elements from there on shift one place right; the multiset gains exactly the element |
| Commands.AddSubmitFlags | sworkflow/suite.py:70-73 | afterwards `sbatch` and `--parsable` are present; a missing `sbatch` goes first and a missing `--parsable` second; a command that has both is unchanged |
| Commands.SubmitFlagsKeepCommand | sworkflow/suite.py:69-73 | the user's tokens survive, in their order, as a subsequence |
| Commands.SubmitFlagsIdempotent | sworkflow/suite.py:69-73 | adding the flags twice is adding them once |
| Commands.InsertKeepsOrder | sworkflow/suite.py:71-77 | an insertion keeps every subsequence of the command |
| Placeholders.Formatted | sworkflow/utils.py:50-63 | the loop of `_formatted` builds exactly `FormatJob(job)` and fails with ValueError where the unpacking fails |
| Placeholders.FormattedGroup | sworkflow/utils.py:70-73 | the `?`-alternatives of one `,`-group are formatted one by one and rejoined with `?` |
| Placeholders.PlaceholderOf | sworkflow/utils.py:69-74 | the `,`-groups of one expression are formatted one by one and rejoined with `,` |
| Placeholders.AsPlaceholder | sworkflow/utils.py:66-75 | it succeeds iff every expression formats, and then maps every task, and no other key, to its placeholder expression |
| Placeholders.PlaceholderError | sworkflow/utils.py:55-59 | the only error is the ValueError of a doubled suffix separator |
| Placeholders.GroupError | sworkflow/utils.py:70-73 | a group fails only with that ValueError |
| Placeholders.FormatJobTokens | sworkflow/utils.py:51-63 | `_formatted` keeps the type and braces each reference's name, keeping its suffix after the closing brace, one output piece per `:`-piece |
| Placeholders.BracedOmits | sworkflow/utils.py:54-61 | bracing a reference adds no character but the braces |
| Placeholders.StripFormatJob | sworkflow/utils.py:50-63 | deleting braces from a formatted alternative gives back the alternative with its braces deleted |
| Placeholders.StripFormatGroup | sworkflow/utils.py:70-73 | the same for a `?`-group |
| Placeholders.StripPlaceholder | sworkflow/utils.py:66-75 | the same for a whole expression: `as_placeholder` adds braces and nothing else |
| Placeholders.ReadBack | sworkflow/utils.py:66-75 | for an expression without braces, deleting the braces of its placeholder gives the expression back |
| Templates.InstantiatePlain | sworkflow/suite.py:91 | `format_map` leaves text without braces unchanged |
| Templates.InstantiateField | sworkflow/utils.py:124-126 | a `{name}` field becomes the name's registered id, or the field itself when `Default` has no id |
| Templates.FieldSurvives | sworkflow/utils.py:124-126 | a field for a task without an id survives `format_map` verbatim |
| Templates.InstantiateAppend | sworkflow/suite.py:91 | formatting a concatenation is formatting each part when the first part formats |
| Templates.InstantiateJoin | sworkflow/suite.py:91 | formatting pieces joined by a separator without braces is joining the formatted pieces |
| Templates.InstantiateBraced | sworkflow/suite.py:91 | a braced reference becomes the id (or the field) followed by the untouched suffix |
| Templates.InstantiateJob | sworkflow/suite.py:91 | formatting `_formatted(job)` puts in the ids of its references and keeps the type and suffixes |
| Templates.InstantiateGroup | sworkflow/suite.py:91 | the same for a `?`-group |
| Templates.InstantiatePlaceholder | sworkflow/suite.py:91 | formatting a placeholder expression gives the original expression with each reference's name replaced by its id, or its placeholder when there is none |
| Templates.UnregisteredSurvives | sworkflow/utils.py:124-126 | with an empty registry, formatting returns the placeholder expression unchanged |
| Templates.ResolveJobUnregistered | sworkflow/utils.py:124-126 | with an empty registry, resolving an alternative gives its placeholder form |
| Templates.ResolveGroupUnregistered | sworkflow/utils.py:124-126 | the same for a `?`-group |
| Status.SplitUnlines | sworkflow/suite.py:132 | `splitlines` gives back lines that were joined by newlines |
| Status.StatusEntry | sworkflow/suite.py:132 | a line becomes a `(jobid, state)` pair iff, stripped, it has exactly one `|`, and the pair rejoined by `|` is the stripped line |
| Status.ToMapKeys | sworkflow/suite.py:132 | the keys of `dict(pairs)` are exactly the first components |
| Status.ToMapLast | sworkflow/suite.py:132 | `dict(pairs)` holds for each key the value of its last pair |
| Status.StatusTableError | sworkflow/suite.py:132 | reading the report fails iff some line is not a pair, naming the first such line |
| Status.EntriesError | sworkflow/suite.py:132 | the loop over lines fails at the first line that is not a pair |
| Status.ReadReport | sworkflow/suite.py:132 | a report written as `id|state` lines of words reads back as the dictionary of its pairs |
| Status.ReadLine | sworkflow/suite.py:132 | one `id|state` line of words reads back as its pair |
| Status.ReportedState | sworkflow/suite.py:132-134 | a job id absent from the report has no state; otherwise its state is that of its last line |
| Suites.TemplateKeepsCommand | sworkflow/suite.py:68-78 | a task's template contains `sbatch` and `--parsable`, keeps the user's tokens in order, adds at most three, and is the flagged command when the task has no dependency |
| Suites.FlagAtTwo | sworkflow/suite.py:74-77 | a task with a dependency has `--dependency=` plus its placeholder expression at index 2 |
| Suites.DependencyFlag | sworkflow/suite.py:74-77 | at submission, index 2 of the command is `--dependency=` with each predecessor's name replaced by its registered id |
| Suites.FlagInstantiated | sworkflow/suite.py:76 | the `--dependency=` prefix passes through `format_map` unchanged |
| Suites.InstantiateCommand | sworkflow/suite.py:91-92 | the command formats iff every token does, and then each token is formatted in place |
| Suites.PassValid | sworkflow/suite.py:89-93 | the submission loop keeps the registry well formed |
| Suites.PassAppend | sworkflow/suite.py:89-93 | a pass over two runs of tasks is the second run continued from where the first ended, unless the first failed |
| Suites.PassFrame | sworkflow/suite.py:88-93 | the pass keeps earlier ids and their order, changes only ids of tasks it visits, and a complete pass registers every task |
| Suites.PassStep | sworkflow/suite.py:89-93 | a task's id is the step's answer for the registry that the earlier tasks left |
| Suites.PassLast | sworkflow/suite.py:89-93 | the last task of a complete pass is registered with the step's answer |
| Suites.PassStops | sworkflow/suite.py:89-93 | the first failing task ends the pass with that error and the registry so far |
| Suites.PredecessorsRegistered | sworkflow/suite.py:85-93 | when a task is submitted, each of its predecessors is already registered, with the id from its own step |
| Suites.PredecessorEarlier | sworkflow/suite.py:85-89 | each predecessor has a last earlier position in the order |
| Suites.KeptSince | sworkflow/suite.py:89-93 | an id stays unchanged until its task comes round again |
| Suites.SameTasksPrepared | sworkflow/suite.py:85-86 | preparing templates along one topological order is the same as along any other |
| Suites.RowsPrefix | sworkflow/suite.py:133-136 | the rows grow by one registry entry per iteration, in registration order |
| Suites.RecordedMeaning | sworkflow/suite.py:133-135 | recording states sets every registered task's state from the table and keeps every other task's state |
| Suites.Suite.constructor | sworkflow/suite.py:37-43 | the suite stores the dependency, commands and id registry it is given, with no templates and no states |
| Suites.Suite.PrepareJobs | sworkflow/suite.py:61-79 | it succeeds iff the graph derives, is acyclic and every expression formats; then it adds a template for every task of a topological order and keeps other templates; on failure nothing changes |
| Suites.Suite.NewTemplates | sworkflow/suite.py:62-78 | the templates it builds cover exactly the tasks of a topological order |
| Suites.CommandTemplates | sworkflow/suite.py:67-78 | the loop maps exactly the tasks of the order to their templates |
| Suites.TaskCommand | sworkflow/suite.py:68-77 | one iteration builds the task's template |
| Suites.Suite.Submit | sworkflow/suite.py:81-95 | it prepares the templates, then registers ids in topological order exactly as `Pass` does, each from the instantiated template; an error stops it, keeping the ids so far; on success it returns the registry |
| Suites.Suite.OrderAndPrepare | sworkflow/suite.py:85-86 | ordering then preparing fails iff the suite is not preparable, and otherwise leaves the templates prepared along that order |
| Suites.Suite.SubmitEach | sworkflow/suite.py:87-93 | the loop over the order ends in the registry and failure that `Pass` gives |
| Suites.Suite.UpdateStatus | sworkflow/suite.py:120-137 | with no ids or no `sacct` it returns no rows and changes nothing; a failing query fails; otherwise one row per registered task, in order, and each task's state is the reported state of its id |
| Suites.Suite.RecordStates | sworkflow/suite.py:133-137 | the loop yields the rows of the registry and sets exactly the registered tasks' states |
| Legacy.KeywordsDiffer | sworkflow/sdepend.py:33 | the legacy keyword set is the current one without `afterburstbuffer` |
| Legacy.WordsAreWords | sworkflow/sdepend.py:94 | `str.split()` yields non-empty pieces without whitespace |
| Legacy.WordsJoin | sworkflow/sdepend.py:105 | splitting words joined by spaces gives the words back, so a formatted command reaches the process as its parts |
| Legacy.WordsOf | sworkflow/sdepend.py:94 | a leading word is split off first |
| Legacy.ItemsCutAtBoth | sworkflow/sdepend.py:60-61 | replacing `,` by `:` and splitting at `:` is cutting at both |
| Legacy.TransformMeaning | sworkflow/sdepend.py:54-64 | a task is a key iff its expression has a non-keyword item, and its set holds exactly those items (no suffix is cut here) |
| Legacy.NamesIn | sworkflow/sdepend.py:60-63 | the inner loop collects exactly the non-keyword items |
| Legacy.Transform | sworkflow/sdepend.py:54-64 | the loop builds exactly the `transform` graph |
| Legacy.TaskOrdering | sworkflow/sdepend.py:67-70 | an order is returned iff the graph is acyclic, and it is topological; otherwise CycleError |
| Legacy.IsValid | sworkflow/sdepend.py:49-51 | a cyclic map raises CycleError; otherwise the answer is whether some expression names a task |
| Legacy.EmptyOrdering | sworkflow/sdepend.py:50-51 | the order is empty iff no expression has a non-keyword item |
| Legacy.SubstituteDefined | sworkflow/sdepend.py:80-91 | substitution succeeds iff every named task has an id, and otherwise raises KeyError for a missing one |
| Legacy.SubstituteShape | sworkflow/sdepend.py:82-91 | the groups and items keep their structure; keywords stay and every other item becomes its task's id |
| Legacy.GroupShape | sworkflow/sdepend.py:84-90 | the same for one `,`-group |
| Legacy.SplitEachMembers | sworkflow/sdepend.py:82-84 | the items of the groups are the items of the whole expression |
| Legacy.SubstituteNoSpace | sworkflow/sdepend.py:80-91 | ids without whitespace give a substituted expression without whitespace |
| Legacy.DependFlag | sworkflow/sdepend.py:93-105 | a task without a dependency gets just the flags; a task with one formats iff its expression substitutes, and then has `--depend=` plus the substituted expression at index 2 |
| Legacy.FlagsFrom | sworkflow/sdepend.py:95-98 | the flagged command holds only the user's words, `sbatch` and `--parsable` |
| Legacy.FlaggedWords | sworkflow/sdepend.py:94-98 | the flagged command is still a list of words |
| Legacy.ResplitCommand | sworkflow/sdepend.py:105 | splitting the formatted command string again, as `process` does, gives back the formatted parts |
| Legacy.RunRecords | sworkflow/sdepend.py:107-121 | in a complete pass each task records the stripped answer of the process to its formatted command, and that command |
| Legacy.RunFailed | sworkflow/sdepend.py:109-113 | once the pass has failed, later tasks change nothing |
| Legacy.RunStops | sworkflow/sdepend.py:109-113 | the first failing task ends the pass with its error and what was recorded before |
| Legacy.RunExtends | sworkflow/sdepend.py:109-113 | a succeeding task records its id and command and nothing else |
| Legacy.RunRegistered | sworkflow/sdepend.py:109-121 | every task visited by a successful pass has an id, and earlier ids stay |
| Legacy.PredecessorIds | sworkflow/sdepend.py:108-111 | in topological order the KeyError of `update_dependency` cannot happen: every name is registered by then |
| Legacy.StepFailure | sworkflow/sdepend.py:110-112 | with its predecessors registered, a task fails only by its submission failing |
| Legacy.OnlySubmissionFails | sworkflow/sdepend.py:107-113 | a pass in topological order fails only by a failing submission |
| Legacy.LastSubmissionFails | sworkflow/sdepend.py:107-113 | the same for the task that follows a successful prefix |
| Legacy.NoTasksRaises | sworkflow/sdepend.py:110 | as written, with no tasks mapping the first task raises AttributeError and nothing is recorded |
| Legacy.CorrectedLookup | sworkflow/sdepend.py:110 | with the corrected lookup, a given mapping behaves exactly as written, and a missing mapping behaves as the empty mapping does: every task runs `default_task` |
| Legacy.SDepend.constructor | sworkflow/sdepend.py:74-78 | the engine stores its dependency and tasks, with no ids and no jobs |
| Legacy.SDepend.UpdateDependency | sworkflow/sdepend.py:80-91 | the loop computes exactly the substitution of recorded ids |
| Legacy.SDepend.UpdateGroup | sworkflow/sdepend.py:84-90 | the inner loop computes exactly the substitution of one group |
| Legacy.SDepend.FormatTask | sworkflow/sdepend.py:93-105 | `format_task` computes exactly `FormatCommand` |
| Legacy.SDepend.Process | sworkflow/sdepend.py:115-121 | the process's stripped answer is recorded as the task's id, or the submission fails and nothing changes |
| Legacy.SDepend.Submit | sworkflow/sdepend.py:107-113 | a cyclic graph raises CycleError before anything is recorded; otherwise the tasks are submitted in a topological order exactly as `Run` does, using the corrected task lookup |
| Legacy.SDepend.SubmitEach | sworkflow/sdepend.py:109-113 | the loop over the order ends where `Run` does |
| Legacy.SDepend.SubmitOne | sworkflow/sdepend.py:110-113 | one iteration records the task's id and command or fails leaving both maps unchanged |
| Legacy.SubmitDependency | sworkflow/sdepend.py:37-40 | the module function makes a fresh engine for the map and submits it, with the corrected task lookup of `Legacy.CorrectedLookup` |

## Left out

- Shell quoting: `shlex.split` and `shlex.join` are not modelled. `Suite` commands are token lists from the start, so the `shlex.join` / `shlex.split` round trip in `prepare_jobs` and `submit` counts as the identity. That is false for tokens that need quoting.
- `str.format_map` is modelled only for the templates sworkflow builds: `{name}` fields, `{{` and `}}`. Format specs, conversions, attribute and index access, and nested fields are not modelled.
- `load_yaml`, `save_yaml` and the `filename` field are left out (file I/O). `submit` saving the suite is not modelled.
- The `sbatch` process (`subprocess.check_output`) and the dry-run stand-in (`utils.check_output`, with its random ids and `print`) are one `submitter` parameter. It returns the process output, or `None` when the process fails.
- The `sacct` probe (`sp.call(['sacct'])` raising FileNotFoundError) is the `installed` parameter of `UpdateStatus`. The query itself is the `sacct` parameter.
- Process output is treated as text: the UTF-8 decode is not modelled.
- `graphlib` picks a particular node among those that are ready. `Ordering.TopologicalOrder` may emit any ready node, so the model proves properties of every topological order and not graphlib's exact tie-break.
- `Suites.Suite.Submit`: the CycleError of its own `task_ordering` call and the one from `prepare_jobs` are the same error, so the model orders only once.
- `graph`, `visualize`, `dot_to_ascii`, `in_jupyter` and the legacy `visualize` draw pictures or call the network, and are left out.
- `cli.py` and `setup.py` are not part of this model.
- Templates.FieldName: a field name holding `.`, `[`, `!` or `:` is a format error in the model. Python would instead read an attribute, an index, a conversion or a format spec, which can succeed. `as_placeholder` cuts expressions at `:`, so only a task name holding `.`, `[` or `!` reaches this case.
- Legacy.SDepend.Submit, Legacy.SDepend.SubmitEach, Legacy.SDepend.SubmitOne, Legacy.SubmitDependency: use the corrected lookup `TaskFor`. As written, a missing `tasks` mapping (None) raises AttributeError at `sdepend.py:110` on the first task (`Legacy.NoTasksRaises`).

## Findings

| source | as written | input that shows it | evidently intended | confidence | as-written member | corrected member |
|---|---|---|---|---|---|---|
| sworkflow/sdepend.py:110 | `tasks` defaults to None and is stored as given, so looking up each task's command calls `get` on None | `submit({'B': 'afterok:A'})` with no `tasks` argument raises AttributeError at the first task, before anything is submitted | no mapping means every task runs `default_task`, as `Suite` does with `jobs or {}` | not executed | Legacy.NoTasksRaises | Legacy.CorrectedLookup |
