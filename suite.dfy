/** sworkflow/suite.py: the `Suite` orchestrator. It keeps the dependency
    map, the per-task commands, the registry of submitted job ids, the
    command templates and the last known job states, and updates the last
    three in place. Commands are token lists (what `shlex.split` gives);
    the submitting process and `sacct` are parameters. */
module Suites {
  import opened Wrappers
  import opened Text
  import Ordering
  import opened OrderedMaps
  import opened Commands
  import opened Utils
  import opened Placeholders
  import opened Templates
  import opened Status

  /** `default_task` (suite.py:32), as `shlex.split` tokenises it. */
  const DefaultTask: seq<string> := ["sbatch", "--wrap=sleep 2"]

  const DependencyOption: string := "--dependency="

  /** The tasks `task_ordering` emits: every key of `as_dict` and every name
      it lists. */
  ghost function TaskNodes(dep: map<string, string>): set<string>
    requires DependencyGraph(dep).Ok?
  {
    Ordering.Nodes(Edges(DependencyGraph(dep).value))
  }

  lemma OrderedNodes(g: Ordering.Graph, order: seq<string>)
    requires Ordering.IsTopologicalOrder(g, order)
    ensures forall t :: t in order <==> t in Ordering.Nodes(g)
  {
  }

  /** What `prepare_jobs` needs to succeed: `as_dict` succeeds, its graph
      has no cycle, and every expression has a placeholder template. */
  ghost predicate Preparable(dep: map<string, string>)
  {
    && DependencyGraph(dep).Ok?
    && !Ordering.Cyclic(Edges(DependencyGraph(dep).value))
    && forall n :: n in dep ==> Placeholder(dep[n]).Ok?
  }

  /** The command `prepare_jobs` makes for one task: its own command (or the
      default one) with `sbatch` and `--parsable` added where missing and,
      for a key of `dependency`, `--dependency=<template>` at index 2. */
  function CommandTemplate(dep: map<string, string>, jobs: map<string, seq<string>>, task: string): seq<string>
    requires task in dep ==> Placeholder(dep[task]).Ok?
  {
    var parts := AddSubmitFlags(if task in jobs then jobs[task] else DefaultTask);
    if task in dep then Insert(parts, 2, DependencyOption + Placeholder(dep[task]).value) else parts
  }

  /** A template keeps the task's own tokens in their order, holds `sbatch`
      and `--parsable`, adds at most three tokens, and adds no dependency
      flag for a task that is not a key of `dependency`. */
  lemma TemplateKeepsCommand(dep: map<string, string>, jobs: map<string, seq<string>>, task: string)
    requires task in dep ==> Placeholder(dep[task]).Ok?
    ensures var base := if task in jobs then jobs[task] else DefaultTask;
            var t := CommandTemplate(dep, jobs, task);
            && Sbatch in t && Parsable in t
            && IsSubsequence(base, t)
            && |t| <= |base| + 3
            && (task !in dep ==> t == AddSubmitFlags(base))
  {
    var base := if task in jobs then jobs[task] else DefaultTask;
    var flagged := AddSubmitFlags(base);
    SubmitFlagsKeepCommand(base);
    if task in dep {
      var t := Insert(flagged, 2, DependencyOption + Placeholder(dep[task]).value);
      InsertKeepsOrder(base, flagged, 2, DependencyOption + Placeholder(dep[task]).value);
      assert Sbatch in multiset(t) && Parsable in multiset(t);
    }
  }

  /** Every token of a command instantiated with `format_map`; the first
      malformed field fails the whole command. */
  function InstantiateCommand(tokens: seq<string>, ids: map<string, string>): (r: Result<seq<string>>)
    ensures r.Ok? <==> forall i :: 0 <= i < |tokens| ==> Instantiate(tokens[i], ids).Ok?
    ensures r.Ok? ==> |r.value| == |tokens| && forall i :: 0 <= i < |tokens| ==> r.value[i] == Instantiate(tokens[i], ids).value
  {
    if tokens == [] then Ok([])
    else
      match Instantiate(tokens[0], ids)
      case Err(e) => Err(e)
      case Ok(t) =>
        var rest := tokens[1..];
        assert forall i :: 1 <= i < |tokens| ==> tokens[i] == rest[i - 1];
        match InstantiateCommand(rest, ids)
        case Err(e) => Err(e)
        case Ok(ts) =>
          var r := [t] + ts;
          assert forall i :: 1 <= i < |tokens| ==> r[i] == ts[i - 1];
          Ok(r)
  }

  /** One iteration of the loop of `submit`, up to the id it stores:
      instantiate the task's template from the registry, submit the command,
      strip the answer. `job_template.get(task)` is None for a task without a
      template, and `None.format_map` raises AttributeError. */
  function SubmitStep(templates: map<string, seq<string>>, submitter: seq<string> -> Option<string>,
                      task: string, ids: map<string, string>): Result<string>
  {
    if task !in templates then Err(NoTemplate(task))
    else
      match InstantiateCommand(templates[task], ids)
      case Err(e) => Err(e)
      case Ok(command) =>
        match submitter(command)
        case None => Err(SubmissionFailed(task))
        case Some(output) => Ok(Strip(output))
  }

  /** The step of `submit` as a value, for Pass. */
  function Submitting(templates: map<string, seq<string>>, submitter: seq<string> -> Option<string>): (string, map<string, string>) -> Result<string>
  {
    (task, ids) => SubmitStep(templates, submitter, task, ids)
  }

  /** Where a pass over some tasks ends: the registry, and the error that
      stopped it, if one did. */
  datatype Outcome = Outcome(ids: OrderedMap<string>, failure: Option<Error>)

  /** The loop of `submit` over `order`: each step computes an id for its task
      from the registry so far and registers it; a failing step stops the
      pass and keeps what the earlier steps registered. */
  function Pass(order: seq<string>, step: (string, map<string, string>) -> Result<string>, ids: OrderedMap<string>): Outcome
  {
    if order == [] then Outcome(ids, None)
    else
      var prev := Pass(order[..|order| - 1], step, ids);
      if prev.failure.Some? then prev
      else
        var task := order[|order| - 1];
        match step(task, prev.ids.values)
        case Err(e) => Outcome(prev.ids, Some(e))
        case Ok(id) => Outcome(prev.ids.Put(task, id), None)
  }

  /** A pass keeps the registry well formed. */
  lemma {:induction false} PassValid(order: seq<string>, step: (string, map<string, string>) -> Result<string>, ids: OrderedMap<string>)
    requires ids.Valid()
    ensures Pass(order, step, ids).ids.Valid()
  {
    if order != [] {
      PassValid(order[..|order| - 1], step, ids);
    }
  }

  /** A pass over `xs + ys` is a pass over `xs` continued by one over `ys`. */
  lemma {:induction false} PassAppend(xs: seq<string>, ys: seq<string>,
                                      step: (string, map<string, string>) -> Result<string>, ids: OrderedMap<string>)
    ensures var p := Pass(xs, step, ids);
            Pass(xs + ys, step, ids) == if p.failure.Some? then p else Pass(ys, step, p.ids)
    decreases |ys|
  {
    if ys == [] {
      assert xs + ys == xs;
    } else {
      var zs := xs + ys;
      assert zs[..|zs| - 1] == xs + ys[..|ys| - 1];
      assert zs[|zs| - 1] == ys[|ys| - 1];
      PassAppend(xs, ys[..|ys| - 1], step, ids);
    }
  }

  /** What a pass does to the registry: it keeps every entry it had, changes
      only the entries of the tasks it handles, adds new tasks after the
      existing keys, and, when it completes, has an id for every task. */
  lemma {:induction false} PassFrame(order: seq<string>, step: (string, map<string, string>) -> Result<string>, ids: OrderedMap<string>)
    ensures var p := Pass(order, step, ids);
            && (forall k :: k in p.ids.values ==> k in ids.values || k in order)
            && (forall k :: k in ids.values ==> k in p.ids.values)
            && (forall k :: k in ids.values && k !in order ==> p.ids.values[k] == ids.values[k])
            && |ids.keys| <= |p.ids.keys| && p.ids.keys[..|ids.keys|] == ids.keys
            && (p.failure.None? ==> forall t :: t in order ==> t in p.ids.values)
  {
    if order != [] {
      var init := order[..|order| - 1];
      PassFrame(init, step, ids);
      var prev := Pass(init, step, ids);
      assert forall t :: t in init ==> t in order;
      assert forall t :: t in order ==> t in init || t == order[|order| - 1];
      var p := Pass(order, step, ids);
      assert p.ids.keys[..|prev.ids.keys|] == prev.ids.keys;
      assert prev.ids.keys[..|ids.keys|] == ids.keys;
      assert p.ids.keys[..|ids.keys|] == p.ids.keys[..|prev.ids.keys|][..|ids.keys|];
    }
  }

  /** The step of a pass that handles `order[i]`: its id is what the step
      computes from the registry the earlier steps left. */
  lemma PassStep(order: seq<string>, i: nat, step: (string, map<string, string>) -> Result<string>, ids: OrderedMap<string>)
    requires i < |order|
    requires Pass(order[..i + 1], step, ids).failure.None?
    ensures Pass(order[..i], step, ids).failure.None?
    ensures var before := Pass(order[..i], step, ids).ids;
            && step(order[i], before.values).Ok?
            && Pass(order[..i + 1], step, ids).ids.values[order[i]] == step(order[i], before.values).value
  {
    var prefix := order[..i + 1];
    assert prefix[..|prefix| - 1] == order[..i];
    PassLast(prefix, step, ids);
  }

  lemma PassLast(order: seq<string>, step: (string, map<string, string>) -> Result<string>, ids: OrderedMap<string>)
    requires order != [] && Pass(order, step, ids).failure.None?
    ensures var prev := Pass(order[..|order| - 1], step, ids);
            && prev.failure.None?
            && step(order[|order| - 1], prev.ids.values).Ok?
            && Pass(order, step, ids).ids.values[order[|order| - 1]] == step(order[|order| - 1], prev.ids.values).value
  {
    PassLastCompleted(order, step, ids);
    PassLastSucceeded(order, step, ids);
    PassLastStored(order, step, ids);
  }

  lemma PassLastCompleted(order: seq<string>, step: (string, map<string, string>) -> Result<string>, ids: OrderedMap<string>)
    requires order != [] && Pass(order, step, ids).failure.None?
    ensures Pass(order[..|order| - 1], step, ids).failure.None?
  {
  }

  lemma PassLastSucceeded(order: seq<string>, step: (string, map<string, string>) -> Result<string>, ids: OrderedMap<string>)
    requires order != [] && Pass(order, step, ids).failure.None?
    ensures step(order[|order| - 1], Pass(order[..|order| - 1], step, ids).ids.values).Ok?
  {
  }

  lemma PassLastStored(order: seq<string>, step: (string, map<string, string>) -> Result<string>, ids: OrderedMap<string>)
    requires order != [] && Pass(order, step, ids).failure.None?
    ensures var prev := Pass(order[..|order| - 1], step, ids);
            Pass(order, step, ids).ids.values[order[|order| - 1]] == step(order[|order| - 1], prev.ids.values).value
  {
  }

  /** When a pass follows a topological order of `as_dict`'s graph, every
      predecessor of the task about to be handled already has an id, and it
      is the id this pass stored when it handled that predecessor. */
  lemma PredecessorsRegistered(g: map<string, seq<string>>, order: seq<string>, i: nat, p: string,
                               step: (string, map<string, string>) -> Result<string>, ids: OrderedMap<string>)
    requires Ordering.IsTopologicalOrder(Edges(g), order)
    requires i < |order| && order[i] in g && p in g[order[i]]
    requires Pass(order[..i], step, ids).failure.None?
    ensures exists j :: 0 <= j < i && order[j] == p
              && Pass(order[..j + 1], step, ids).failure.None?
              && p in Pass(order[..i], step, ids).ids.values
              && Pass(order[..i], step, ids).ids.values[p] == Pass(order[..j + 1], step, ids).ids.values[p]
  {
    var j := PredecessorEarlier(g, order, i, p);
    KeptSince(order, j, i, step, ids);
  }

  /** A predecessor comes earlier in a topological order. */
  lemma PredecessorEarlier(g: map<string, seq<string>>, order: seq<string>, i: nat, p: string) returns (j: nat)
    requires Ordering.IsTopologicalOrder(Edges(g), order)
    requires i < |order| && order[i] in g && p in g[order[i]]
    ensures j < i && order[j] == p
    ensures forall k :: j < k < i ==> order[k] != p
  {
    OrderCoversGraph(g, order);
    assert p in order;
    j :| 0 <= j < |order| && order[j] == p;
  }

  /** The id stored at step `j` is still there after step `i - 1` when no
      step in between handles the same task. */
  lemma KeptSince(order: seq<string>, j: nat, i: nat, step: (string, map<string, string>) -> Result<string>, ids: OrderedMap<string>)
    requires j < i <= |order|
    requires forall k :: j < k < i ==> order[k] != order[j]
    requires Pass(order[..i], step, ids).failure.None?
    ensures Pass(order[..j + 1], step, ids).failure.None?
    ensures order[j] in Pass(order[..i], step, ids).ids.values
    ensures Pass(order[..i], step, ids).ids.values[order[j]] == Pass(order[..j + 1], step, ids).ids.values[order[j]]
  {
    var p := order[j];
    var head := order[..j + 1];
    var rest := order[j + 1..i];
    assert order[..i] == head + rest;
    PassAppend(head, rest, step, ids);
    var first := Pass(head, step, ids);
    PassFrame(head, step, ids);
    assert p in head;
    assert p !in rest by {
      forall k | 0 <= k < |rest| ensures rest[k] != p {
        assert rest[k] == order[j + 1 + k];
      }
    }
    PassFrame(rest, step, first.ids);
  }

  /** A step that fails stops the pass: whatever comes after it is not run. */
  lemma PassStops(order: seq<string>, k: nat, step: (string, map<string, string>) -> Result<string>,
                  ids: OrderedMap<string>, reached: OrderedMap<string>, e: Error)
    requires k < |order|
    requires Pass(order[..k], step, ids) == Outcome(reached, None)
    requires step(order[k], reached.values) == Err(e)
    ensures Pass(order, step, ids) == Outcome(reached, Some(e))
  {
    var head := order[..k + 1];
    assert head[..|head| - 1] == order[..k];
    assert Pass(head, step, ids) == Outcome(reached, Some(e));
    PassAppend(head, order[k + 1..], step, ids);
    assert head + order[k + 1..] == order;
  }

  /** The command `submit` runs for a key of `dependency` carries at index 2
      `--dependency=` followed by the key's expression with every reference
      resolved from the registry: a registered name becomes its job id and an
      unregistered one stays a `{name}` field. */
  lemma DependencyFlag(dep: map<string, string>, jobs: map<string, seq<string>>, task: string, ids: map<string, string>)
    requires task in dep
    requires '{' !in dep[task] && '}' !in dep[task]
    requires EveryReference(dep[task], ValidField)
    ensures Placeholder(dep[task]).Ok?
    ensures var command := InstantiateCommand(CommandTemplate(dep, jobs, task), ids);
            command.Ok? ==> |command.value| > 2 && command.value[2] == DependencyOption + Resolve(dep[task], ids)
  {
    InstantiatePlaceholder(dep[task], ids);
    FlagAtTwo(dep, jobs, task);
    FlagInstantiated(Placeholder(dep[task]).value, Resolve(dep[task], ids), ids);
    var template := CommandTemplate(dep, jobs, task);
    var command := InstantiateCommand(template, ids);
    if command.Ok? {
      assert command.value[2] == Instantiate(template[2], ids).value;
    }
  }

  lemma FlagInstantiated(template: string, resolved: string, ids: map<string, string>)
    requires Instantiate(template, ids) == Ok(resolved)
    ensures Instantiate(DependencyOption + template, ids) == Ok(DependencyOption + resolved)
  {
    InstantiatePlain(DependencyOption, ids);
    InstantiateAppend(DependencyOption, template, ids);
  }

  /** `--dependency=<template>` is inserted at index 2, after `sbatch` and
      `--parsable`, which every command has. */
  lemma FlagAtTwo(dep: map<string, string>, jobs: map<string, seq<string>>, task: string)
    requires task in dep && Placeholder(dep[task]).Ok?
    ensures |CommandTemplate(dep, jobs, task)| > 2
    ensures CommandTemplate(dep, jobs, task)[2] == DependencyOption + Placeholder(dep[task]).value
  {
    var parts := AddSubmitFlags(if task in jobs then jobs[task] else DefaultTask);
    var a :| 0 <= a < |parts| && parts[a] == Sbatch;
    var b :| 0 <= b < |parts| && parts[b] == Parsable;
    assert a != b;
  }

  /** One row of `update_status`: task name, job id, state (None when `sacct`
      did not report the id). */
  datatype Row = Row(name: string, jobId: string, state: Option<string>)

  /** `sacct -n -P --format="jobid,state" -j <ids>` (suite.py:121, 129-131)
      as `shlex.split` tokenises it. */
  function SacctCommand(ids: seq<string>): seq<string>
  {
    ["sacct", "-n", "-P", "--format=jobid,state", "-j", Join(ids, ',')]
  }

  /** The query of `update_status` for a registry that is not empty: `sacct`
      on the ids in registration order, its report read into a table. */
  function StatusQuery(ids: OrderedMap<string>, sacct: seq<string> -> Option<string>): Result<map<string, string>>
    requires ids.Valid()
  {
    match sacct(SacctCommand(ids.ValuesInOrder()))
    case None => Err(StatusQueryFailed)
    case Some(out) => StatusTable(out)
  }

  /** What `prepare_jobs` leaves behind for an order of the tasks: the order
      is topological, every task of it has its template, and the templates
      of other tasks are the ones there were before. */
  ghost predicate Prepared(dep: map<string, string>, jobs: map<string, seq<string>>,
                           before: map<string, seq<string>>, after: map<string, seq<string>>, order: seq<string>)
    requires Preparable(dep)
  {
    && Ordering.IsTopologicalOrder(Edges(DependencyGraph(dep).value), order)
    && (forall t :: t in after <==> t in before || t in order)
    && (forall t :: t in order ==> after[t] == CommandTemplate(dep, jobs, t))
    && (forall t :: t in before && t !in order ==> after[t] == before[t])
  }

  /** Any two topological orders of the graph hold the same tasks, so either
      one describes what `prepare_jobs` did. */
  lemma SameTasksPrepared(dep: map<string, string>, jobs: map<string, seq<string>>,
                          before: map<string, seq<string>>, after: map<string, seq<string>>,
                          prepared: seq<string>, order: seq<string>)
    requires Preparable(dep) && Prepared(dep, jobs, before, after, prepared)
    requires Ordering.IsTopologicalOrder(Edges(DependencyGraph(dep).value), order)
    ensures Prepared(dep, jobs, before, after, order)
  {
    var g := Edges(DependencyGraph(dep).value);
    OrderedNodes(g, order);
    OrderedNodes(g, prepared);
  }

  /** The rows `update_status` returns: one per registered task, in
      registration order. */
  function Rows(ids: OrderedMap<string>, table: map<string, string>): seq<Row>
    requires ids.Valid()
  {
    seq(|ids.keys|, i requires 0 <= i < |ids.keys| => Row(ids.keys[i], ids.values[ids.keys[i]], StateOf(table, ids.values[ids.keys[i]])))
  }

  /** The rows of the first `k + 1` tasks extend the rows of the first `k`. */
  lemma RowsPrefix(ids: OrderedMap<string>, table: map<string, string>, k: nat)
    requires ids.Valid() && k < |ids.keys|
    ensures Rows(ids, table)[..k + 1] == Rows(ids, table)[..k] + [Row(ids.keys[k], ids.values[ids.keys[k]], StateOf(table, ids.values[ids.keys[k]]))]
  {
  }

  /** The states the loop of `update_status` has recorded after visiting
      `names`, starting from `before`. */
  function Recorded(before: map<string, Option<string>>, names: seq<string>,
                    values: map<string, string>, table: map<string, string>): map<string, Option<string>>
  {
    if names == [] then before
    else
      var last := names[|names| - 1];
      var init := Recorded(before, names[..|names| - 1], values, table);
      if last in values then init[last := StateOf(table, values[last])] else init
  }

  /** Every visited name gets its state, every other name keeps its own. */
  lemma {:induction false} RecordedMeaning(before: map<string, Option<string>>, names: seq<string>,
                                           values: map<string, string>, table: map<string, string>)
    requires forall n :: n in names ==> n in values
    ensures forall n :: n in Recorded(before, names, values, table) <==> n in before || n in names
    ensures forall n :: n in names ==> Recorded(before, names, values, table)[n] == StateOf(table, values[n])
    ensures forall n :: n in before && n !in names ==> Recorded(before, names, values, table)[n] == before[n]
  {
    if names != [] {
      var init := names[..|names| - 1];
      assert forall n :: n in names <==> n in init || n == names[|names| - 1] by {
        assert names == init + [names[|names| - 1]];
      }
      RecordedMeaning(before, init, values, table);
    }
  }

  /** The loop of `prepare_jobs` (over the suite's `dependency` and `jobs`):
      a template for every task of the order. */
  method CommandTemplates(dep: map<string, string>, jobs: map<string, seq<string>>,
                          order: seq<string>, placeholders: map<string, string>) returns (result: map<string, seq<string>>)
    requires placeholders.Keys == dep.Keys
    requires forall n :: n in dep ==> Placeholder(dep[n]) == Ok(placeholders[n])
    ensures forall t :: t in result <==> t in order
    ensures forall t :: t in result ==> result[t] == CommandTemplate(dep, jobs, t)
  {
    result := map[];
    for k := 0 to |order|
      invariant forall t :: t in result <==> t in order[..k]
      invariant forall t :: t in result ==> result[t] == CommandTemplate(dep, jobs, t)
    {
      var task := order[k];
      var parts := TaskCommand(dep, jobs, task, placeholders);
      result := result[task := parts];
      assert order[..k + 1] == order[..k] + [task];
    }
    assert order[..|order|] == order;
  }

  /** The body of the loop of `prepare_jobs` for one task. */
  method TaskCommand(dep: map<string, string>, jobs: map<string, seq<string>>,
                     task: string, placeholders: map<string, string>) returns (parts: seq<string>)
    requires placeholders.Keys == dep.Keys
    requires forall n :: n in dep ==> Placeholder(dep[n]) == Ok(placeholders[n])
    ensures parts == CommandTemplate(dep, jobs, task)
  {
    parts := if task in jobs then jobs[task] else DefaultTask;
    if Sbatch !in parts {
      parts := Insert(parts, 0, Sbatch);
    }
    if Parsable !in parts {
      parts := Insert(parts, 1, Parsable);
    }
    if task in placeholders {
      parts := Insert(parts, 2, DependencyOption + placeholders[task]);
    }
  }

  class Suite {
    var dependency: map<string, string>
    var jobs: map<string, seq<string>>
    var jobIds: OrderedMap<string>
    var jobTemplate: map<string, seq<string>>
    var status: map<string, Option<string>>

    ghost predicate Valid()
      reads this
    {
      jobIds.Valid()
    }

    /** `Suite(dependency, jobs, job_ids)` (suite.py:37-43); a missing `jobs`
        or `job_ids` is passed as the empty map. */
    constructor(dependency: map<string, string>, jobs: map<string, seq<string>>, jobIds: OrderedMap<string>)
      requires jobIds.Valid()
      ensures Valid()
      ensures this.dependency == dependency && this.jobs == jobs && this.jobIds == jobIds
      ensures jobTemplate == map[] && status == map[]
    {
      this.dependency := dependency;
      this.jobs := jobs;
      this.jobIds := jobIds;
      jobTemplate := map[];
      status := map[];
    }

    /** `prepare_jobs()` (suite.py:61-79): one template per ordered task,
        merged into `job_template`; an error of `task_ordering` or of
        `as_placeholder` leaves everything as it was. */
    method PrepareJobs() returns (r: Result<()>, ghost order: seq<string>)
      modifies this`jobTemplate
      ensures r.Ok? <==> Preparable(old(dependency))
      ensures r.Err? ==> jobTemplate == old(jobTemplate)
      ensures r.Ok? ==> Prepared(old(dependency), old(jobs), old(jobTemplate), jobTemplate, order)
    {
      var result;
      result, order := NewTemplates();
      if result.Err? {
        return Err(result.error), order;
      }
      jobTemplate := jobTemplate + result.value;
      return Ok(()), order;
    }

    /** The templates `prepare_jobs` computes before merging them. */
    method NewTemplates() returns (r: Result<map<string, seq<string>>>, ghost order: seq<string>)
      ensures r.Ok? <==> Preparable(dependency)
      ensures r.Ok? ==> Ordering.IsTopologicalOrder(Edges(DependencyGraph(dependency).value), order)
      ensures r.Ok? ==> forall t :: t in r.value <==> t in order
      ensures r.Ok? ==> forall t :: t in r.value ==> r.value[t] == CommandTemplate(dependency, jobs, t)
    {
      var ordering := TaskOrdering(dependency);
      if ordering.Err? {
        return Err(ordering.error), [];
      }
      var placeholders := AsPlaceholder(dependency);
      if placeholders.Err? {
        return Err(placeholders.error), [];
      }
      var result := CommandTemplates(dependency, jobs, ordering.value, placeholders.value);
      return Ok(result), ordering.value;
    }

    /** `submit()` (suite.py:81-95): order the tasks, prepare the templates,
        then, task by task in that order, fill the task's template from the
        registry, submit the command and register the stripped answer. The
        registry is returned. An error of the ordering or of the templates
        changes nothing; an error in the loop keeps the ids registered so far. */
    method Submit(submitter: seq<string> -> Option<string>) returns (r: Result<map<string, string>>, ghost order: seq<string>)
      requires Valid()
      modifies this`jobTemplate, this`jobIds
      ensures Valid()
      ensures !Preparable(dependency) ==> r.Err? && jobTemplate == old(jobTemplate) && jobIds == old(jobIds)
      ensures Preparable(dependency) ==> Prepared(old(dependency), old(jobs), old(jobTemplate), jobTemplate, order)
      ensures Preparable(dependency) ==>
                Pass(order, Submitting(jobTemplate, submitter), old(jobIds)) == Outcome(jobIds, if r.Ok? then None else Some(r.error))
      ensures r.Ok? ==> r.value == jobIds.values
    {
      var ordering := OrderAndPrepare();
      if ordering.Err? {
        return Err(ordering.error), [];
      }
      order := ordering.value;
      r := SubmitEach(ordering.value, submitter);
    }

    /** The first two steps of `submit`: `task_ordering`, whose order the loop
        follows, then `prepare_jobs`, which orders the same tasks again. */
    method OrderAndPrepare() returns (r: Result<seq<string>>)
      modifies this`jobTemplate
      ensures r.Ok? <==> Preparable(old(dependency))
      ensures r.Err? ==> jobTemplate == old(jobTemplate)
      ensures r.Ok? ==> Prepared(old(dependency), old(jobs), old(jobTemplate), jobTemplate, r.value)
    {
      var ordering := TaskOrdering(dependency);
      if ordering.Err? {
        return Err(ordering.error);
      }
      var prepared;
      ghost var prepOrder;
      prepared, prepOrder := PrepareJobs();
      if prepared.Err? {
        return Err(prepared.error);
      }
      SameTasksPrepared(dependency, jobs, old(jobTemplate), jobTemplate, prepOrder, ordering.value);
      return ordering;
    }

    /** The loop of `submit` over the ordered tasks, every one of which has a
        template. */
    method SubmitEach(tasks: seq<string>, submitter: seq<string> -> Option<string>) returns (r: Result<map<string, string>>)
      requires jobIds.Valid()
      requires forall t :: t in tasks ==> t in jobTemplate
      modifies this`jobIds
      ensures jobIds.Valid()
      ensures Pass(tasks, Submitting(jobTemplate, submitter), old(jobIds)) == Outcome(jobIds, if r.Ok? then None else Some(r.error))
      ensures r.Ok? ==> r.value == jobIds.values
    {
      ghost var step := Submitting(jobTemplate, submitter);
      ghost var start := jobIds;
      for k := 0 to |tasks|
        invariant jobIds.Valid()
        invariant Pass(tasks[..k], step, start) == Outcome(jobIds, None)
      {
        var task := tasks[k];
        var command := InstantiateCommand(jobTemplate[task], jobIds.values);
        if command.Err? {
          assert step(task, jobIds.values) == Err(command.error);
          PassStops(tasks, k, step, start, jobIds, command.error);
          return Err(command.error);
        }
        var output := submitter(command.value);
        if output.None? {
          assert step(task, jobIds.values) == Err(SubmissionFailed(task));
          PassStops(tasks, k, step, start, jobIds, SubmissionFailed(task));
          return Err(SubmissionFailed(task));
        }
        assert step(task, jobIds.values) == Ok(Strip(output.value));
        assert tasks[..k + 1][..k] == tasks[..k];
        jobIds := jobIds.Put(task, Strip(output.value));
      }
      assert tasks[..|tasks|] == tasks;
      return Ok(jobIds.values);
    }

    /** `update_status()` (suite.py:120-137): nothing to do for an empty
        registry or when `sacct` is not installed; otherwise query the states
        of all registered ids, record each task's state (None for an id the
        report does not list) and return the rows. A failing query or a
        malformed report line changes nothing. */
    method UpdateStatus(installed: bool, sacct: seq<string> -> Option<string>) returns (r: Result<seq<Row>>)
      requires Valid()
      modifies this`status
      ensures jobIds.values == map[] || !installed ==> r == Ok([]) && status == old(status)
      ensures jobIds.values != map[] && installed && StatusQuery(jobIds, sacct).Err? ==>
                r == Err(StatusQuery(jobIds, sacct).error) && status == old(status)
      ensures jobIds.values != map[] && installed && StatusQuery(jobIds, sacct).Ok? ==>
                && r == Ok(Rows(jobIds, StatusQuery(jobIds, sacct).value))
                && (forall n :: n in status <==> n in old(status) || n in jobIds.values)
                && (forall n :: n in jobIds.values ==> status[n] == StateOf(StatusQuery(jobIds, sacct).value, jobIds.values[n]))
                && (forall n :: n in old(status) && n !in jobIds.values ==> status[n] == old(status)[n])
    {
      if jobIds.keys == [] {
        assert jobIds.values == map[];
        return Ok([]);
      }
      assert jobIds.keys[0] in jobIds.values;
      if !installed {
        return Ok([]);
      }
      var out := sacct(SacctCommand(jobIds.ValuesInOrder()));
      if out.None? {
        return Err(StatusQueryFailed);
      }
      var table := StatusTable(out.value);
      if table.Err? {
        return Err(table.error);
      }
      var rows := RecordStates(table.value);
      return Ok(rows);
    }

    /** The loop of `update_status` over the registry. */
    method RecordStates(table: map<string, string>) returns (rows: seq<Row>)
      requires Valid()
      modifies this`status
      ensures rows == Rows(jobIds, table)
      ensures forall n :: n in status <==> n in old(status) || n in jobIds.values
      ensures forall n :: n in jobIds.values ==> status[n] == StateOf(table, jobIds.values[n])
      ensures forall n :: n in old(status) && n !in jobIds.values ==> status[n] == old(status)[n]
    {
      rows := [];
      ghost var ids := jobIds;
      ghost var before := status;
      var keys := jobIds.keys;
      var values := jobIds.values;
      for k := 0 to |keys|
        invariant rows == Rows(ids, table)[..k]
        invariant status == Recorded(before, keys[..k], values, table)
      {
        var name := keys[k];
        var id := values[name];
        var state := StateOf(table, id);
        status := status[name := state];
        RowsPrefix(ids, table, k);
        rows := rows + [Row(name, id, state)];
        assert keys[..k + 1][..k] == keys[..k];
      }
      assert keys[..|keys|] == keys;
      assert Rows(ids, table)[..|keys|] == Rows(ids, table);
      RecordedMeaning(before, keys, values, table);
    }
  }
}
