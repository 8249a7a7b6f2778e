/** sworkflow/utils.py: the dependency-expression grammar as the newer engine
    reads it. An expression follows `sbatch --dependency`: `,` separates
    dependencies, `?` alternatives, and each dependency is `type:ref[:ref...]`,
    where a reference may carry a `+time` or `_arraytask` suffix. */
module Utils {
  import opened Wrappers
  import opened Text
  import Ordering
  import opened Commands

  /** `keywords`: the dependency types the newer engine recognises. */
  const Keywords: set<string> :=
    {"after", "afterok", "afternotok", "afterany", "aftercorr", "afterburstbuffer", "singleton"}

  /** The opaque suffix of a reference: `+tail` (time) or `_tail` (array task). */
  datatype Suffix = NoSuffix | Offset(tail: string) | ArrayTask(tail: string)

  datatype Reference = Reference(name: string, suffix: Suffix)

  function SuffixText(s: Suffix): string
  {
    match s
    case NoSuffix => ""
    case Offset(tail) => "+" + tail
    case ArrayTask(tail) => "_" + tail
  }

  function ReferenceText(r: Reference): string
  {
    r.name + SuffixText(r.suffix)
  }

  /** The suffix handling shared by `as_dict`, `as_tuple` and `_formatted`:
      `head, tail = tok.split('+')` when the token has a `+`, otherwise the same
      with `_`, otherwise the whole token. Unpacking fails (ValueError) when the
      chosen separator occurs more than once. */
  function ParseReference(tok: string): (r: Result<Reference>)
    ensures r.Err? ==> r.error == TooManyValues
  {
    if '+' in tok then
      var parts := Split(tok, '+');
      if |parts| == 2 then Ok(Reference(parts[0], Offset(parts[1]))) else Err(TooManyValues)
    else if '_' in tok then
      var parts := Split(tok, '_');
      if |parts| == 2 then Ok(Reference(parts[0], ArrayTask(parts[1]))) else Err(TooManyValues)
    else
      Ok(Reference(tok, NoSuffix))
  }

  /** A reference parses exactly when its separator (`+` if it has one, else
      `_`) occurs at most once; the parsed name and suffix spell the token
      again, the name is the text before the separator, and `+` wins over `_`. */
  lemma ParseReferenceMeaning(tok: string)
    ensures var r := ParseReference(tok);
            && (r.Ok? <==> if '+' in tok then multiset(tok)['+'] == 1
                           else '_' in tok ==> multiset(tok)['_'] == 1)
            && (r.Ok? ==> ReferenceText(r.value) == tok)
            && (r.Ok? ==> '+' !in r.value.name)
            && (r.Ok? ==> (r.value.suffix.Offset? <==> '+' in tok))
            && (r.Ok? ==> (r.value.suffix.ArrayTask? <==> '+' !in tok && '_' in tok))
            && (r.Ok? && r.value.suffix.ArrayTask? ==> '_' !in r.value.name && '_' !in r.value.suffix.tail)
            && (r.Ok? && r.value.suffix.Offset? ==> '+' !in r.value.suffix.tail)
  {
    if '+' in tok {
      SplitOnce(tok, '+');
    } else if '_' in tok {
      SplitOnce(tok, '_');
    }
  }

  /** `tok.split(sep)` gives two pieces exactly when `sep` occurs once, and
      then the pieces are the text around it. */
  lemma SplitOnce(tok: string, sep: char)
    ensures |Split(tok, sep)| == 2 <==> multiset(tok)[sep] == 1
    ensures |Split(tok, sep)| == 2 ==>
              && Split(tok, sep)[0] + [sep] + Split(tok, sep)[1] == tok
              && sep !in Split(tok, sep)[0] && sep !in Split(tok, sep)[1]
  {
    SplitCount(tok, sep);
    SplitHalves(tok, sep);
    SplitAnyPieces(tok, {sep});
  }

  /** A parsed reference spells its token again. */
  lemma ParseReferenceText(tok: string)
    ensures ParseReference(tok).Ok? ==> ReferenceText(ParseReference(tok).value) == tok
  {
    if '+' in tok {
      SplitHalves(tok, '+');
    } else if '_' in tok {
      SplitHalves(tok, '_');
    }
  }

  /** A token cut into two pieces at `sep` is the pieces around `sep`. */
  lemma SplitHalves(tok: string, sep: char)
    ensures |Split(tok, sep)| == 2 ==> Split(tok, sep)[0] + [sep] + Split(tok, sep)[1] == tok
  {
    JoinSplit(tok, sep);
    var parts := Split(tok, sep);
    if |parts| == 2 {
      assert Join(parts, sep) == parts[0] + [sep] + parts[1];
    }
  }

  /** The bare predecessor name of a reference token. */
  function RefName(tok: string): (r: Result<string>)
    ensures r.Ok? <==> ParseReference(tok).Ok?
    ensures r.Ok? ==> r.value == ParseReference(tok).value.name
    ensures r.Err? ==> r.error == TooManyValues
  {
    match ParseReference(tok)
    case Err(e) => Err(e)
    case Ok(r) => Ok(r.name)
  }

  /** `re.split('[,?:]', value)`: `as_dict` cuts at all three separators alike. */
  function Tokens(expr: string): seq<string>
  {
    SplitAny(expr, {',', '?', ':'})
  }

  /** The tokens that are not keywords, in order. */
  function NonKeywords(toks: seq<string>): (r: seq<string>)
    ensures forall i :: 0 <= i < |r| ==> r[i] !in Keywords && r[i] in toks
    ensures forall t :: t in toks && t !in Keywords ==> t in r
    ensures |r| <= |toks|
    ensures forall t {:trigger multiset(r)[t]} :: t !in Keywords ==> multiset(r)[t] == multiset(toks)[t]
    ensures IsSubsequence(r, toks)
  {
    if toks == [] then []
    else
      var front := toks[..|toks| - 1];
      var init := NonKeywords(front);
      var last := toks[|toks| - 1];
      assert toks == front + [last];
      KeepOrDrop(init, front, last);
      if last in Keywords then init else init + [last]
  }

  /** One step of the filter keeps what the filter promises. */
  lemma KeepOrDrop(kept: seq<string>, front: seq<string>, last: string)
    requires forall i :: 0 <= i < |kept| ==> kept[i] !in Keywords && kept[i] in front
    requires forall t :: t in front && t !in Keywords ==> t in kept
    requires |kept| <= |front|
    requires forall t :: t !in Keywords ==> multiset(kept)[t] == multiset(front)[t]
    requires IsSubsequence(kept, front)
    ensures var r := if last in Keywords then kept else kept + [last];
            var toks := front + [last];
            && (forall i :: 0 <= i < |r| ==> r[i] !in Keywords && r[i] in toks)
            && (forall t :: t in toks && t !in Keywords ==> t in r)
            && |r| <= |toks|
            && (forall t :: t !in Keywords ==> multiset(r)[t] == multiset(toks)[t])
            && IsSubsequence(r, toks)
  {
    assert multiset(front + [last]) == multiset(front) + multiset{last};
    if last in Keywords {
      SubsequenceAppend(kept, front, [], [last]);
      assert kept + [] == kept;
    } else {
      SubsequenceReflexive([last]);
      SubsequenceAppend(kept, front, [last], [last]);
    }
  }

  lemma NonKeywordsSnoc(toks: seq<string>, t: string)
    ensures NonKeywords(toks + [t]) == if t in Keywords then NonKeywords(toks) else NonKeywords(toks) + [t]
  {
    assert (toks + [t])[..|toks|] == toks;
  }

  /** One expression's entry in `as_dict`: every non-keyword token, stripped of
      its suffix, in order. */
  function Predecessors(expr: string): Result<seq<string>>
  {
    MapResult(NonKeywords(Tokens(expr)), RefName)
  }

  /** What `as_dict` keeps of one expression: one name per non-keyword token
      (keyword tokens are dropped whatever their position), the text before the
      suffix separator; a token whose separator repeats makes the whole call fail. */
  lemma PredecessorsMeaning(expr: string)
    ensures var toks := NonKeywords(Tokens(expr));
            && (Predecessors(expr).Ok? <==> forall i :: 0 <= i < |toks| ==> ParseReference(toks[i]).Ok?)
            && (Predecessors(expr).Ok? ==>
                  && |Predecessors(expr).value| == |toks|
                  && forall i :: 0 <= i < |toks| ==>
                       ParseReference(toks[i]).value.name == Predecessors(expr).value[i])
            && (Predecessors(expr).Err? ==> Predecessors(expr).error == TooManyValues)
  {
  }

  /** A predecessor name is a keyword only when its token carried a suffix:
      keywords are tested before suffixes are cut, so `after+5` gives the
      name `after`. */
  lemma KeywordNameHadSuffix(expr: string, i: nat)
    requires Predecessors(expr).Ok? && i < |Predecessors(expr).value|
    requires Predecessors(expr).value[i] in Keywords
    ensures var tok := NonKeywords(Tokens(expr))[i];
            tok !in Keywords && ('+' in tok || '_' in tok)
  {
    PredecessorsMeaning(expr);
  }

  /** The quirk itself: a keyword with a `+` suffix is no keyword token, and
      its name is the keyword (`after+5` gives `after`). */
  lemma KeywordWithSuffix(k: string, tail: string)
    requires k in Keywords && '+' !in tail
    ensures k + "+" + tail !in Keywords
    ensures RefName(k + "+" + tail) == Ok(k)
  {
    var tok := k + "+" + tail;
    assert tok[|k|] == '+';
    KeywordsUnsuffixed();
    assert Join([k, tail], '+') == tok;
    SplitJoin([k, tail], '+');
  }

  /** No keyword carries either suffix separator. */
  lemma KeywordsUnsuffixed()
    ensures forall k :: k in Keywords ==> '+' !in k && '_' !in k
  {
  }

  /** The empty expression contributes one predecessor, the empty name. */
  lemma EmptyExpressionPredecessor()
    ensures Predecessors("") == Ok([""])
  {
    assert Tokens("") == [""];
    assert NonKeywords([""]) == [""];
    assert ParseReference("") == Ok(Reference("", NoSuffix));
    assert RefName("") == Ok("");
    assert MapResult([""], RefName).Ok?;
    assert MapResult([""], RefName).value == [""];
  }

  /** `as_dict`, specified: keys whose expression has a non-keyword token, each
      mapped to its predecessor names; a ValueError from any token fails it. */
  function DependencyGraph(dep: map<string, string>): Result<map<string, seq<string>>>
  {
    match NonEmptyValues(dep, Predecessors)
    case None => Err(TooManyValues)
    case Some(m) => Ok(m)
  }

  /** The non-empty values of `f` on the entries of `dep`, or None when one fails. */
  function NonEmptyValues(dep: map<string, string>, f: string -> Result<seq<string>>): (r: Option<map<string, seq<string>>>)
    ensures r.Some? <==> forall n :: n in dep ==> f(dep[n]).Ok?
    ensures r.Some? ==> forall n :: n in r.value <==> n in dep && f(dep[n]).value != []
    ensures r.Some? ==> forall n :: n in r.value ==> r.value[n] == f(dep[n]).value
  {
    if forall n :: n in dep ==> f(dep[n]).Ok? then
      Some(map n | n in dep && f(dep[n]).value != [] :: f(dep[n]).value)
    else
      None
  }

  /** A task appears as a key of `as_dict` exactly when its expression holds a
      token that is not a keyword: `{'A': 'singleton'}` gives no entry for A. */
  lemma GraphKeys(dep: map<string, string>, n: string)
    requires DependencyGraph(dep).Ok?
    ensures n in DependencyGraph(dep).value <==> n in dep && exists t :: t in Tokens(dep[n]) && t !in Keywords
  {
    if n in dep {
      var toks := NonKeywords(Tokens(dep[n]));
      assert |Predecessors(dep[n]).value| == |toks|;
      if exists t :: t in Tokens(dep[n]) && t !in Keywords {
        var t :| t in Tokens(dep[n]) && t !in Keywords;
        assert t in toks;
      }
    }
  }

  /** A loop over the keys of `dep` that has visited all but `todo` and
      stored the non-empty values of `f` in `m`, every one a success. */
  ghost predicate NonEmptyBuilt(dep: map<string, string>, f: string -> Result<seq<string>>, todo: set<string>, m: map<string, seq<string>>)
  {
    && todo <= dep.Keys
    && (forall n :: n in dep && n !in todo ==> f(dep[n]).Ok?)
    && (forall n :: n in m <==> n in dep && n !in todo && f(dep[n]).value != [])
    && (forall n :: n in m ==> m[n] == f(dep[n]).value)
  }

  lemma NonEmptyBuiltStep(dep: map<string, string>, f: string -> Result<seq<string>>, todo: set<string>, m: map<string, seq<string>>, n: string)
    requires NonEmptyBuilt(dep, f, todo, m) && n in todo && f(dep[n]).Ok?
    ensures f(dep[n]).value == [] ==> NonEmptyBuilt(dep, f, todo - {n}, m)
    ensures f(dep[n]).value != [] ==> NonEmptyBuilt(dep, f, todo - {n}, m[n := f(dep[n]).value])
  {
  }

  /** A finished loop built exactly what NonEmptyValues describes. */
  lemma NonEmptyBuiltDone(dep: map<string, string>, f: string -> Result<seq<string>>, m: map<string, seq<string>>)
    requires NonEmptyBuilt(dep, f, {}, m)
    ensures NonEmptyValues(dep, f) == Some(m)
  {
    var want := map n | n in dep && f(dep[n]).value != [] :: f(dep[n]).value;
    assert m.Keys == want.Keys;
    assert m == want;
  }

  /** One failing entry fails NonEmptyValues. */
  lemma NonEmptyValuesFail(dep: map<string, string>, f: string -> Result<seq<string>>, n: string)
    requires n in dep && f(dep[n]).Err?
    ensures NonEmptyValues(dep, f) == None
  {
  }

  /** `as_dict(dependency)` (utils.py:13-29). */
  method AsDict(dep: map<string, string>) returns (r: Result<map<string, seq<string>>>)
    ensures r == DependencyGraph(dep)
  {
    var names: map<string, seq<string>> := map[];
    var todo := dep.Keys;
    while todo != {}
      invariant NonEmptyBuilt(dep, Predecessors, todo, names)
      decreases |todo|
    {
      var name :| name in todo;
      var list := PredecessorsOf(dep[name]);
      if list.Err? {
        NonEmptyValuesFail(dep, Predecessors, name);
        return Err(list.error);
      }
      NonEmptyBuiltStep(dep, Predecessors, todo, names, name);
      todo := todo - {name};
      if list.value != [] {
        names := names[name := list.value];
      }
    }
    NonEmptyBuiltDone(dep, Predecessors, names);
    return Ok(names);
  }

  /** The inner loop of `as_dict` over one expression's tokens. */
  method PredecessorsOf(value: string) returns (r: Result<seq<string>>)
    ensures r == Predecessors(value)
  {
    var values := Tokens(value);
    var list: seq<string> := [];
    var i := 0;
    while i < |values|
      invariant 0 <= i <= |values|
      invariant MapResult(NonKeywords(values[..i]), RefName) == Ok(list)
    {
      var val := values[i];
      NonKeywordsPrefix(values, i);
      if val !in Keywords {
        MapResultSnoc(NonKeywords(values[..i]), val, RefName, list);
        match ParseReference(val)
        case Err(e) =>
          PrefixFailure(values, i + 1);
          NamesError(NonKeywords(values));
          return Err(e);
        case Ok(ref) =>
          list := list + [ref.name];
      }
      i := i + 1;
    }
    assert values[..|values|] == values;
    return Ok(list);
  }

  /** The only error of `val, _ = val.split(...)` is ValueError. */
  lemma NamesError(toks: seq<string>)
    requires MapResult(toks, RefName).Err?
    ensures MapResult(toks, RefName).error == TooManyValues
  {
    var i :| 0 <= i < |toks| && RefName(toks[i]) == Err(MapResult(toks, RefName).error);
  }

  /** The filter of one more token of `values`. */
  lemma NonKeywordsPrefix(values: seq<string>, i: nat)
    requires i < |values|
    ensures NonKeywords(values[..i + 1]) ==
            if values[i] in Keywords then NonKeywords(values[..i]) else NonKeywords(values[..i]) + [values[i]]
  {
    var front := values[..i];
    var toks := values[..i + 1];
    assert toks == front + [values[i]];
    NonKeywordsSnoc(front, values[i]);
  }

  /** A failure on a prefix of the tokens is a failure of the expression. */
  lemma PrefixFailure(toks: seq<string>, k: nat)
    requires k <= |toks|
    requires MapResult(NonKeywords(toks[..k]), RefName).Err?
    ensures MapResult(NonKeywords(toks), RefName).Err?
  {
    var pre := NonKeywords(toks[..k]);
    var i :| 0 <= i < |pre| && RefName(pre[i]).Err?;
    assert pre[i] in toks[..k];
    assert pre[i] in toks;
    assert pre[i] in NonKeywords(toks);
  }

  /** The edges `TopologicalSorter` is built from. */
  function Edges(g: map<string, seq<string>>): Ordering.Graph
  {
    map n | n in g :: set p | p in g[n]
  }

  /** Every key of `as_dict` and every name it lists is ordered, the names first. */
  lemma OrderCoversGraph(g: map<string, seq<string>>, order: seq<string>)
    requires Ordering.IsTopologicalOrder(Edges(g), order)
    ensures forall n :: n in g ==> n in order
    ensures forall n, p :: n in g && p in g[n] ==> p in order
    ensures forall i, j :: 0 <= i < |order| && 0 <= j < |order| && order[i] in g && order[j] in g[order[i]] ==> j < i
  {
    assert forall n :: n in g ==> n in Ordering.Nodes(Edges(g));
    assert forall n, p :: n in g && p in g[n] ==> p in Edges(g)[n];
  }

  /** `task_ordering(dependency)` (utils.py:78-83): a topological order of
      `as_dict(dependency)`, or the error of `as_dict`, or CycleError. */
  method TaskOrdering(dep: map<string, string>) returns (r: Result<seq<string>>)
    ensures DependencyGraph(dep).Err? ==> r == Err(TooManyValues)
    ensures DependencyGraph(dep).Ok? ==>
              var g := Edges(DependencyGraph(dep).value);
              && (r.Ok? <==> !Ordering.Cyclic(g))
              && (r.Ok? ==> Ordering.IsTopologicalOrder(g, r.value))
              && (r.Err? ==> r.error == CycleError)
  {
    var d := AsDict(dep);
    if d.Err? {
      return Err(d.error);
    }
    r := Ordering.TopologicalOrder(Edges(d.value));
  }

  /** One `?`-alternative of `as_tuple`: its first `:`-token as it is, then
      every later token stripped of its suffix (keywords included). */
  function JobTuple(job: string): Result<seq<string>>
  {
    var items := Split(job, ':');
    match MapResult(items[1..], RefName)
    case Err(e) => Err(e)
    case Ok(names) => Ok([items[0]] + names)
  }

  function Concat(xss: seq<seq<string>>): seq<string>
  {
    if xss == [] then [] else xss[0] + Concat(xss[1..])
  }

  /** One expression's entry in `as_tuple`: `re.split('[,?]', value)`, then
      each alternative as JobTuple. */
  function TupleEntries(expr: string): Result<seq<string>>
  {
    match MapResult(SplitAny(expr, {',', '?'}), JobTuple)
    case Err(e) => Err(e)
    case Ok(tuples) => Ok(Concat(tuples))
  }

  /** `as_tuple` keeps one entry per `:`-token of every alternative, and every
      alternative's first token verbatim, keyword or not. */
  lemma JobTupleShape(job: string)
    ensures var items := Split(job, ':');
            JobTuple(job).Ok? ==>
              && |JobTuple(job).value| == |items|
              && JobTuple(job).value[0] == items[0]
              && forall k :: 1 <= k < |items| ==> JobTuple(job).value[k] == ParseReference(items[k]).value.name
  {
    var items := Split(job, ':');
    assert forall k :: 1 <= k < |items| ==> items[1..][k - 1] == items[k];
  }

  /** `as_tuple(dependency)` (utils.py:32-47): every key gets an entry, since
      every alternative contributes at least its first token. */
  method AsTuple(dep: map<string, string>) returns (r: Result<map<string, seq<string>>>)
    ensures r.Ok? ==> r.value.Keys == dep.Keys
    ensures r.Ok? ==> forall n :: n in dep ==> TupleEntries(dep[n]) == Ok(r.value[n])
    ensures r.Err? ==> exists n :: n in dep && TupleEntries(dep[n]) == Err(r.error)
  {
    ghost var spec := TupleEntries;
    var names: map<string, seq<string>> := map[];
    var todo := dep.Keys;
    while todo != {}
      invariant Built(dep, spec, todo, names)
      decreases |todo|
    {
      var name :| name in todo;
      var list := TupleEntriesOf(dep[name]);
      if list.Err? {
        return Err(list.error);
      }
      BuiltStep(dep, spec, todo, names, name);
      todo := todo - {name};
      names := names[name := list.value];
    }
    BuiltDone(dep, spec, names);
    return Ok(names);
  }

  /** The loop of `as_tuple` over one expression's alternatives. */
  method TupleEntriesOf(value: string) returns (r: Result<seq<string>>)
    ensures r == TupleEntries(value)
  {
    var values := SplitAny(value, {',', '?'});
    ghost var step := JobTuple;
    var list: seq<string> := [];
    ghost var tuples: seq<seq<string>> := [];
    for i := 0 to |values|
      invariant MapResult(values[..i], step) == Ok(tuples)
      invariant list == Concat(tuples)
    {
      var entry := JobTupleOf(values[i]);
      if entry.Err? {
        FirstFailure(values, i, step, entry.error);
        return Err(entry.error);
      }
      ExtendPrefix(values, i, step, tuples);
      ConcatSnoc(tuples, entry.value);
      tuples := tuples + [entry.value];
      list := list + entry.value;
    }
    assert values[..|values|] == values;
    return Ok(list);
  }

  /** One alternative of `as_tuple`: its first `:`-token, then the names of the others. */
  method JobTupleOf(job: string) returns (r: Result<seq<string>>)
    ensures r == JobTuple(job)
  {
    var items := Split(job, ':');
    var names := NamesOf(items[1..]);
    if names.Err? {
      return Err(names.error);
    }
    return Ok([items[0]] + names.value);
  }

  /** The innermost loop of `as_tuple`, over the reference tokens of one alternative. */
  method NamesOf(toks: seq<string>) returns (r: Result<seq<string>>)
    ensures r == MapResult(toks, RefName)
  {
    var names: seq<string> := [];
    var k := 0;
    while k < |toks|
      invariant 0 <= k <= |toks|
      invariant MapResult(toks[..k], RefName) == Ok(names)
    {
      var name := RefName(toks[k]);
      if name.Err? {
        FirstFailure(toks, k, RefName, name.error);
        return Err(name.error);
      }
      ExtendPrefix(toks, k, RefName, names);
      names := names + [name.value];
      k := k + 1;
    }
    assert toks[..k] == toks;
    return Ok(names);
  }

  lemma {:induction false} ConcatSnoc(xss: seq<seq<string>>, xs: seq<string>)
    ensures Concat(xss + [xs]) == Concat(xss) + xs
  {
    if xss == [] {
      assert [] + [xs] == [xs];
      assert Concat([xs]) == xs + Concat([]);
    } else {
      assert (xss + [xs])[0] == xss[0];
      assert (xss + [xs])[1..] == xss[1..] + [xs];
      ConcatSnoc(xss[1..], xs);
    }
  }
}
