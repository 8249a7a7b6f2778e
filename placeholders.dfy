/** sworkflow/utils.py, second half: `_formatted` and `as_placeholder` turn a
    dependency expression into a template whose references are `{name}`
    fields, and `str.format_map` with `Default` later fills those fields from
    the job-id registry, leaving a field whose name has no id as it is. */
module Placeholders {
  import opened Wrappers
  import opened Text
  import opened Utils

  /** What `_formatted` makes of a reference: `{head}` followed by the
      suffix as written (`+tail`, `_tail` or nothing). */
  function Braced(r: Reference): string
  {
    "{" + r.name + "}" + SuffixText(r.suffix)
  }

  /** One reference token of `_formatted`, or the ValueError of unpacking. */
  function FormatReference(tok: string): Result<string>
  {
    match ParseReference(tok)
    case Err(e) => Err(e)
    case Ok(ref) => Ok(Braced(ref))
  }

  /** `_formatted(job_str)` (utils.py:50-63): the first `:`-token is kept as
      it is (it is taken to be the dependency type by its position), every
      later token is braced. */
  function FormatJob(job: string): Result<string>
  {
    var items := Split(job, ':');
    match MapResult(items[1..], FormatReference)
    case Err(e) => Err(e)
    case Ok(refs) => Ok(Join([items[0]] + refs, ':'))
  }

  /** `'?'.join(_formatted(j) for j in parts.split('?'))` (utils.py:71-73). */
  function FormatGroup(group: string): Result<string>
  {
    match MapResult(Split(group, '?'), FormatJob)
    case Err(e) => Err(e)
    case Ok(jobs) => Ok(Join(jobs, '?'))
  }

  /** The entry `as_placeholder` makes of one expression (utils.py:69-74):
      its `,`-groups formatted and joined again with `,`. */
  function Placeholder(expr: string): Result<string>
  {
    match MapResult(Split(expr, ','), FormatGroup)
    case Err(e) => Err(e)
    case Ok(groups) => Ok(Join(groups, ','))
  }

  // ---------------------------------------------------------------------
  // The loops of `_formatted` and `as_placeholder`.

  /** `_formatted`: `parts` starts with the keyword and gains one braced
      reference per later token. */
  method Formatted(job: string) returns (r: Result<string>)
    ensures r == FormatJob(job)
  {
    var items := Split(job, ':');
    var names := items[1..];
    var braced: seq<string> := [];
    var k := 0;
    while k < |names|
      invariant 0 <= k <= |names|
      invariant MapResult(names[..k], FormatReference) == Ok(braced)
    {
      var s := FormatReference(names[k]);
      if s.Err? {
        FirstFailure(names, k, FormatReference, s.error);
        return Err(s.error);
      }
      ExtendPrefix(names, k, FormatReference, braced);
      braced := braced + [s.value];
      k := k + 1;
    }
    assert names[..k] == names;
    return Ok(Join([items[0]] + braced, ':'));
  }

  /** The list comprehension over one group's `?`-alternatives. */
  method FormattedGroup(group: string) returns (r: Result<string>)
    ensures r == FormatGroup(group)
  {
    var jobs := Split(group, '?');
    var done: seq<string> := [];
    var k := 0;
    while k < |jobs|
      invariant 0 <= k <= |jobs|
      invariant MapResult(jobs[..k], FormatJob) == Ok(done)
    {
      var s := Formatted(jobs[k]);
      if s.Err? {
        FirstFailure(jobs, k, FormatJob, s.error);
        return Err(s.error);
      }
      ExtendPrefix(jobs, k, FormatJob, done);
      done := done + [s.value];
      k := k + 1;
    }
    assert jobs[..k] == jobs;
    return Ok(Join(done, '?'));
  }

  /** The loop over one expression's `,`-groups (`comma_parts`). */
  method PlaceholderOf(expr: string) returns (r: Result<string>)
    ensures r == Placeholder(expr)
  {
    var groups := Split(expr, ',');
    var commaParts: seq<string> := [];
    var k := 0;
    while k < |groups|
      invariant 0 <= k <= |groups|
      invariant MapResult(groups[..k], FormatGroup) == Ok(commaParts)
    {
      var s := FormattedGroup(groups[k]);
      if s.Err? {
        FirstFailure(groups, k, FormatGroup, s.error);
        return Err(s.error);
      }
      ExtendPrefix(groups, k, FormatGroup, commaParts);
      commaParts := commaParts + [s.value];
      k := k + 1;
    }
    assert groups[..k] == groups;
    return Ok(Join(commaParts, ','));
  }

  /** `as_placeholder(dependency)` (utils.py:66-75): every key gets its
      expression as a template; a reference whose separator repeats raises. */
  method AsPlaceholder(dep: map<string, string>) returns (r: Result<map<string, string>>)
    ensures r.Ok? <==> forall n :: n in dep ==> Placeholder(dep[n]).Ok?
    ensures r.Ok? ==> r.value.Keys == dep.Keys
    ensures r.Ok? ==> forall n :: n in dep ==> r.value[n] == Placeholder(dep[n]).value
    ensures r.Err? ==> r.error == TooManyValues
  {
    ghost var spec := Placeholder;
    var result: map<string, string> := map[];
    var todo := dep.Keys;
    while todo != {}
      invariant Built(dep, spec, todo, result)
      decreases |todo|
    {
      var name :| name in todo;
      var s := PlaceholderOf(dep[name]);
      if s.Err? {
        assert s.error == TooManyValues by {
          PlaceholderError(dep[name]);
        }
        return Err(s.error);
      }
      BuiltStep(dep, spec, todo, result, name);
      todo := todo - {name};
      result := result[name := s.value];
    }
    BuiltDone(dep, spec, result);
    return Ok(result);
  }

  /** The only way `as_placeholder` fails is a reference whose separator
      repeats: the ValueError of unpacking. */
  lemma PlaceholderError(expr: string)
    ensures Placeholder(expr).Err? ==> Placeholder(expr).error == TooManyValues
  {
    var groups := Split(expr, ',');
    var m := MapResult(groups, FormatGroup);
    if m.Err? {
      var i :| 0 <= i < |groups| && FormatGroup(groups[i]) == Err(m.error);
      GroupError(groups[i]);
    }
  }

  lemma GroupError(group: string)
    ensures FormatGroup(group).Err? ==> FormatGroup(group).error == TooManyValues
  {
    var jobs := Split(group, '?');
    var m := MapResult(jobs, FormatJob);
    if m.Err? {
      var i :| 0 <= i < |jobs| && FormatJob(jobs[i]) == Err(m.error);
    }
  }

  /** Cut at `:` again, a formatted alternative is its first token unbraced,
      then one braced reference per later token: `{head}` followed by the
      token's `+tail` or `_tail`, or `{name}` alone. */
  lemma FormatJobTokens(job: string)
    requires FormatJob(job).Ok?
    ensures var items := Split(job, ':');
            var out := Split(FormatJob(job).value, ':');
            && |out| == |items| && out[0] == items[0]
            && forall k :: 1 <= k < |items| ==> ParseReference(items[k]).Ok? && out[k] == Braced(ParseReference(items[k]).value)
  {
    var items := Split(job, ':');
    var refs := MapResult(items[1..], FormatReference).value;
    var parts := [items[0]] + refs;
    forall i | 0 <= i < |parts|
      ensures ':' !in parts[i]
    {
      if i > 0 {
        assert items[1..][i - 1] == items[i];
        BracedOmits(items[i], ':');
      }
    }
    SplitJoin(parts, ':');
    forall k | 1 <= k < |items|
      ensures ParseReference(items[k]).Ok? && parts[k] == Braced(ParseReference(items[k]).value)
    {
      assert items[1..][k - 1] == items[k];
    }
  }

  /** A braced reference holds no character of its token other than braces. */
  lemma BracedOmits(tok: string, c: char)
    requires c !in tok && c != '{' && c != '}'
    requires ParseReference(tok).Ok?
    ensures c !in Braced(ParseReference(tok).value)
  {
    var r := ParseReference(tok).value;
    ParseReferenceText(tok);
    assert tok == r.name + SuffixText(r.suffix);
  }

  // ---------------------------------------------------------------------
  // Reading a template back: delete the braces and the expression returns.

  /** Joining pieces that read back alike gives joins that read back alike. */
  lemma {:induction false} StripJoin(parts: seq<string>, outs: seq<string>, sep: char)
    requires sep != '{' && sep != '}'
    requires |parts| == |outs|
    requires forall i :: 0 <= i < |parts| ==> StripBraces(outs[i]) == StripBraces(parts[i])
    ensures StripBraces(Join(outs, sep)) == StripBraces(Join(parts, sep))
  {
    if |parts| > 1 {
      StripJoin(parts[1..], outs[1..], sep);
      StripBracesAppend(outs[0] + [sep], Join(outs[1..], sep));
      StripBracesAppend(outs[0], [sep]);
      StripBracesAppend(parts[0] + [sep], Join(parts[1..], sep));
      StripBracesAppend(parts[0], [sep]);
    }
  }

  /** A braced reference reads back as the reference token. */
  lemma StripBraced(tok: string)
    requires ParseReference(tok).Ok?
    ensures StripBraces(Braced(ParseReference(tok).value)) == StripBraces(tok)
  {
    var r := ParseReference(tok).value;
    ParseReferenceText(tok);
    StripBracesAround(r.name, SuffixText(r.suffix));
  }

  lemma StripBracesAround(name: string, suffix: string)
    ensures StripBraces("{" + name + "}" + suffix) == StripBraces(name + suffix)
  {
    assert StripBraces("{") == [] && StripBraces("}") == [];
    StripBracesAppend("{" + name + "}", suffix);
    StripBracesAppend("{" + name, "}");
    StripBracesAppend("{", name);
    StripBracesAppend(name, suffix);
  }

  lemma StripFormatJob(job: string)
    requires FormatJob(job).Ok?
    ensures StripBraces(FormatJob(job).value) == StripBraces(job)
  {
    var items := Split(job, ':');
    var refs := MapResult(items[1..], FormatReference).value;
    var outs := [items[0]] + refs;
    forall i | 0 <= i < |items|
      ensures StripBraces(outs[i]) == StripBraces(items[i])
    {
      if i > 0 {
        assert items[1..][i - 1] == items[i];
        StripBraced(items[i]);
      }
    }
    StripJoin(items, outs, ':');
    JoinSplit(job, ':');
  }

  lemma StripFormatGroup(group: string)
    requires FormatGroup(group).Ok?
    ensures StripBraces(FormatGroup(group).value) == StripBraces(group)
  {
    var jobs := Split(group, '?');
    var outs := MapResult(jobs, FormatJob).value;
    forall i | 0 <= i < |jobs|
      ensures StripBraces(outs[i]) == StripBraces(jobs[i])
    {
      StripFormatJob(jobs[i]);
    }
    StripJoin(jobs, outs, '?');
    JoinSplit(group, '?');
  }

  /** Deleting every brace from a placeholder template gives the expression
      with its own braces deleted: keywords, names, suffixes and every `,`,
      `?` and `:` stay where they were, and only braces are added. */
  lemma StripPlaceholder(expr: string)
    requires Placeholder(expr).Ok?
    ensures StripBraces(Placeholder(expr).value) == StripBraces(expr)
  {
    var groups := Split(expr, ',');
    var outs := MapResult(groups, FormatGroup).value;
    forall i | 0 <= i < |groups|
      ensures StripBraces(outs[i]) == StripBraces(groups[i])
    {
      StripFormatGroup(groups[i]);
    }
    StripJoin(groups, outs, ',');
    JoinSplit(expr, ',');
  }

  /** For an expression without braces of its own, deleting the braces gives
      the expression back. */
  lemma ReadBack(expr: string)
    requires '{' !in expr && '}' !in expr
    requires Placeholder(expr).Ok?
    ensures StripBraces(Placeholder(expr).value) == expr
  {
    StripPlaceholder(expr);
  }
}
