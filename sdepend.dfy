/** sworkflow/sdepend.py: the older `sDepend` engine. Its expressions have the
    same syntax, but its references are never braced: `update_dependency`
    replaces every token that is not a keyword by the job id recorded for it.
    Commands are strings cut at whitespace by `str.split()`; the submitting
    process is a parameter. */
module Legacy {
  import opened Wrappers
  import opened Text
  import Ordering
  import opened Commands
  import Utils

  /** `keywords` (sdepend.py:33). */
  const Keywords: set<string> := {"after", "afterok", "afternotok", "afterany", "aftercorr", "singleton"}

  /** `default_task` (sdepend.py:34). */
  const DefaultTask: string := "sbatch sleep_for_second.sh"

  const DependOption: string := "--depend="

  /** The two engines disagree on one dependency type: this one does not
      know `afterburstbuffer`, so `transform` takes it for a task name. */
  lemma KeywordsDiffer()
    ensures Keywords == Utils.Keywords - {"afterburstbuffer"}
    ensures "afterburstbuffer" !in Keywords && "afterburstbuffer" in Utils.Keywords
  {
  }

  // ---------------------------------------------------------------------
  // `str.split()` with no argument.

  /** Not empty and free of whitespace: what `str.split()` yields. */
  predicate IsWord(w: string)
  {
    w != [] && forall k :: 0 <= k < |w| ==> !IsSpace(w[k])
  }

  /** `s.split()`, reading `s` one character at a time while the word `cur`
      is being collected: whitespace ends a word, and empty words are dropped. */
  function Scan(s: string, cur: string): seq<string>
    decreases |s|
  {
    if s == [] then Flush(cur)
    else if IsSpace(s[0]) then Flush(cur) + Scan(s[1..], [])
    else Scan(s[1..], cur + [s[0]])
  }

  /** The word collected so far, if there is one. */
  function Flush(cur: string): seq<string>
  {
    if cur == [] then [] else [cur]
  }

  /** `s.split()`: the maximal runs of characters that are not whitespace. */
  function Words(s: string): seq<string>
  {
    Scan(s, [])
  }

  /** Every piece `split()` yields is a word. */
  lemma WordsAreWords(s: string)
    ensures forall i :: 0 <= i < |Words(s)| ==> IsWord(Words(s)[i])
  {
    ScanWords(s, []);
  }

  lemma {:induction false} ScanWords(s: string, cur: string)
    requires forall k :: 0 <= k < |cur| ==> !IsSpace(cur[k])
    ensures forall i :: 0 <= i < |Scan(s, cur)| ==> IsWord(Scan(s, cur)[i])
    decreases |s|
  {
    if s != [] {
      if IsSpace(s[0]) {
        ScanWords(s[1..], []);
      } else {
        var next := cur + [s[0]];
        assert forall k :: 0 <= k < |next| ==> !IsSpace(next[k]) by {
          assert forall k :: 0 <= k < |cur| ==> next[k] == cur[k];
        }
        ScanWords(s[1..], next);
      }
    }
  }

  /** Reading characters that are not whitespace only extends the word. */
  lemma {:induction false} ScanWord(p: string, rest: string, cur: string)
    requires forall k :: 0 <= k < |p| ==> !IsSpace(p[k])
    ensures Scan(p + rest, cur) == Scan(rest, cur + p)
    decreases |p|
  {
    if p == [] {
      assert p + rest == rest && cur + p == cur;
    } else {
      assert (p + rest)[0] == p[0];
      assert (p + rest)[1..] == p[1..] + rest;
      assert forall k :: 0 <= k < |p[1..]| ==> p[1..][k] == p[k + 1];
      ScanWord(p[1..], rest, cur + [p[0]]);
      assert cur + [p[0]] + p[1..] == cur + p;
    }
  }

  /** Cutting a command joined with blanks gives its words back. */
  lemma {:induction false} WordsJoin(parts: seq<string>)
    requires forall i :: 0 <= i < |parts| ==> IsWord(parts[i])
    ensures Words(Join(parts, ' ')) == parts
  {
    if parts != [] {
      var p := parts[0];
      var s := Join(parts, ' ');
      if |parts| == 1 {
        WordsOf(p, []);
        assert p + [] == p;
      } else {
        var rest := Join(parts[1..], ' ');
        assert s == p + ([' '] + rest);
        WordsOf(p, [' '] + rest);
        WordsSkipSpace(' ', rest);
        WordsJoin(parts[1..]);
      }
    }
  }

  /** A word followed by text that starts with whitespace (or nothing). */
  lemma WordsOf(p: string, rest: string)
    requires IsWord(p)
    requires rest == [] || IsSpace(rest[0])
    ensures Words(p + rest) == [p] + Words(rest)
  {
    ScanWord(p, rest, []);
    assert [] + p == p;
    if rest != [] {
      assert Scan(rest, p) == [p] + Scan(rest[1..], []);
      assert Scan(rest, []) == [] + Scan(rest[1..], []);
    }
  }

  /** Leading whitespace makes no word. */
  lemma WordsSkipSpace(c: char, rest: string)
    requires IsSpace(c)
    ensures Words([c] + rest) == Words(rest)
  {
    assert ([c] + rest)[1..] == rest;
    assert Scan([c] + rest, []) == [] + Scan(rest, []);
  }

  // ---------------------------------------------------------------------
  // `transform` and `task_ordering`.

  /** The tokens `transform` looks at: `value.replace(',', ':').split(':')`. */
  function Items(expr: string): seq<string>
  {
    Split(Replace(expr, ',', ':'), ':')
  }

  /** `,` is treated exactly like `:`: the items are the pieces of the
      expression cut at both. */
  lemma ItemsCutAtBoth(expr: string)
    ensures Items(expr) == SplitAny(expr, {':', ','})
  {
    ReplaceThenSplit(expr, ',', ':', {':'});
    assert {':'} + {','} == {':', ','};
  }

  /** The set `transform` collects for one expression: its items that are not
      keywords, suffixes included. */
  function Names(expr: string): set<string>
  {
    set t | t in Items(expr) && t !in Keywords
  }

  /** `transform(dependency)` (sdepend.py:54-64): a key only for an expression
      with at least one name, since the `defaultdict` entry is made by the
      first `add`. */
  function Transformed(dep: map<string, string>): Ordering.Graph
  {
    map n | n in dep && Names(dep[n]) != {} :: Names(dep[n])
  }

  /** What `transform` promises: every name is a piece of the expression cut
      at `,` and `:`, no name is a keyword, and a key is kept exactly when its
      expression has a name. */
  lemma TransformMeaning(dep: map<string, string>)
    ensures forall n :: n in Transformed(dep) <==> n in dep && exists t :: t in SplitAny(dep[n], {':', ','}) && t !in Keywords
    ensures forall n, t :: n in Transformed(dep) && t in Transformed(dep)[n] <==>
              n in dep && t in SplitAny(dep[n], {':', ','}) && t !in Keywords
  {
    forall n | n in dep
      ensures Items(dep[n]) == SplitAny(dep[n], {':', ','})
    {
      ItemsCutAtBoth(dep[n]);
    }
    forall n | n in dep && (exists t :: t in SplitAny(dep[n], {':', ','}) && t !in Keywords)
      ensures Names(dep[n]) != {}
    {
      var t :| t in SplitAny(dep[n], {':', ','}) && t !in Keywords;
      assert t in Names(dep[n]);
    }
  }

  /** The inner loop of `transform`: the names of one expression. */
  method NamesIn(expr: string) returns (found: set<string>)
    ensures found == Names(expr)
  {
    var items := Split(Replace(expr, ',', ':'), ':');
    found := {};
    for k := 0 to |items|
      invariant found == set t | t in items[..k] && t !in Keywords
    {
      if items[k] !in Keywords {
        found := found + {items[k]};
      }
      assert items[..k + 1] == items[..k] + [items[k]];
    }
    assert items[..|items|] == items;
  }

  /** The loop of `transform`: one set of names per expression. */
  method Transform(dep: map<string, string>) returns (names: map<string, set<string>>)
    ensures names == Transformed(dep)
  {
    names := map[];
    var todo := dep.Keys;
    while todo != {}
      invariant todo <= dep.Keys
      invariant forall n :: n in names <==> n in dep && n !in todo && Names(dep[n]) != {}
      invariant forall n :: n in names ==> names[n] == Names(dep[n])
      decreases |todo|
    {
      var name :| name in todo;
      var found := NamesIn(dep[name]);
      if found != {} {
        names := names[name := found];
      }
      todo := todo - {name};
    }
    assert names.Keys == Transformed(dep).Keys;
  }

  /** `task_ordering(dependency)` (sdepend.py:67-70). */
  method TaskOrdering(dep: map<string, string>) returns (r: Result<seq<string>>)
    ensures r.Ok? <==> !Ordering.Cyclic(Transformed(dep))
    ensures r.Ok? ==> Ordering.IsTopologicalOrder(Transformed(dep), r.value)
    ensures r.Err? ==> r.error == CycleError
  {
    var d := Transform(dep);
    r := Ordering.TopologicalOrder(d);
  }

  /** `is_valid(dependency)` (sdepend.py:49-51): a cycle raises instead of
      answering False; otherwise the answer is False exactly when no
      expression names a task. */
  method IsValid(dep: map<string, string>) returns (r: Result<bool>)
    ensures r.Ok? <==> !Ordering.Cyclic(Transformed(dep))
    ensures r.Err? ==> r.error == CycleError
    ensures r.Ok? ==> (r.value <==> exists n, t :: n in dep && t in SplitAny(dep[n], {':', ','}) && t !in Keywords)
  {
    var ordering := TaskOrdering(dep);
    if ordering.Err? {
      return Err(ordering.error);
    }
    EmptyOrdering(dep, ordering.value);
    return Ok(ordering.value != []);
  }

  /** An ordering is empty exactly when the transformed map is. */
  lemma EmptyOrdering(dep: map<string, string>, order: seq<string>)
    requires Ordering.IsTopologicalOrder(Transformed(dep), order)
    ensures order != [] <==> exists n, t :: n in dep && t in SplitAny(dep[n], {':', ','}) && t !in Keywords
  {
    var g := Transformed(dep);
    TransformMeaning(dep);
    if order != [] {
      assert order[0] in Ordering.Nodes(g);
      if order[0] !in g {
        var n, p :| n in g && p in g[n] && p == order[0];
      }
    }
    if exists n, t :: n in dep && t in SplitAny(dep[n], {':', ','}) && t !in Keywords {
      var n, t :| n in dep && t in SplitAny(dep[n], {':', ','}) && t !in Keywords;
      assert n in g;
      assert n in order;
    }
  }

  // ---------------------------------------------------------------------
  // `update_dependency`.

  /** One token of `update_dependency`: a keyword is copied, any other token
      is replaced by its recorded id; a token without one raises KeyError. */
  function SubstituteToken(ids: map<string, string>, item: string): Result<string>
  {
    if item in Keywords then Ok(item)
    else if item in ids then Ok(ids[item])
    else Err(KeyError(item))
  }

  function TokenStep(ids: map<string, string>): string -> Result<string>
  {
    item => SubstituteToken(ids, item)
  }

  /** One `,`-group: its `:`-tokens substituted and joined again. */
  function SubstituteGroup(ids: map<string, string>, part: string): Result<string>
  {
    match MapResult(Split(part, ':'), TokenStep(ids))
    case Err(e) => Err(e)
    case Ok(sub) => Ok(Join(sub, ':'))
  }

  function GroupStep(ids: map<string, string>): string -> Result<string>
  {
    part => SubstituteGroup(ids, part)
  }

  /** `update_dependency(expr)` (sdepend.py:80-91) with `task_ids` = `ids`. */
  function SubstituteIds(ids: map<string, string>, expr: string): Result<string>
  {
    match MapResult(Split(expr, ','), GroupStep(ids))
    case Err(e) => Err(e)
    case Ok(result) => Ok(Join(result, ','))
  }

  /** Every token of a group is a token of the whole expression cut at `,`
      and `:`. */
  lemma {:induction false} SplitEachMembers(parts: seq<string>, b: set<char>)
    ensures forall t :: t in SplitEach(parts, b) <==> exists i :: 0 <= i < |parts| && t in SplitAny(parts[i], b)
  {
    if parts != [] {
      SplitEachMembers(parts[1..], b);
      forall t | t in SplitEach(parts, b)
        ensures exists i :: 0 <= i < |parts| && t in SplitAny(parts[i], b)
      {
        if t !in SplitAny(parts[0], b) {
          assert t in SplitEach(parts[1..], b);
          var i :| 0 <= i < |parts[1..]| && t in SplitAny(parts[1..][i], b);
          assert parts[1..][i] == parts[i + 1];
        }
      }
      forall t, i | 0 <= i < |parts| && t in SplitAny(parts[i], b)
        ensures t in SplitEach(parts, b)
      {
        if i > 0 {
          assert parts[1..][i - 1] == parts[i];
        }
      }
    }
  }

  /** `update_dependency` succeeds exactly when every name `transform` finds
      in the expression has a recorded id; otherwise the KeyError names one
      of the missing names. */
  lemma SubstituteDefined(ids: map<string, string>, expr: string)
    ensures SubstituteIds(ids, expr).Ok? <==> Names(expr) <= ids.Keys
    ensures SubstituteIds(ids, expr).Err? ==>
              exists t :: t in Names(expr) && t !in ids && SubstituteIds(ids, expr).error == KeyError(t)
  {
    ItemsOfGroups(expr);
    if SubstituteIds(ids, expr).Err? {
      SubstituteMissing(ids, expr);
    } else {
      SubstituteFound(ids, expr);
    }
  }

  /** The items of an expression are the `:`-tokens of its `,`-groups. */
  lemma ItemsOfGroups(expr: string)
    ensures forall t :: t in Items(expr) <==> exists i :: 0 <= i < |Split(expr, ',')| && t in Split(Split(expr, ',')[i], ':')
  {
    ItemsCutAtBoth(expr);
    SplitTwice(expr, {','}, {':'});
    assert {','} + {':'} == {':', ','};
    SplitEachMembers(Split(expr, ','), {':'});
  }

  lemma SubstituteMissing(ids: map<string, string>, expr: string)
    requires forall t :: t in Items(expr) <==> exists i :: 0 <= i < |Split(expr, ',')| && t in Split(Split(expr, ',')[i], ':')
    requires SubstituteIds(ids, expr).Err?
    ensures exists t :: t in Names(expr) && t !in ids && SubstituteIds(ids, expr).error == KeyError(t)
  {
    var groups := Split(expr, ',');
    var m := MapResult(groups, GroupStep(ids));
    var i :| 0 <= i < |groups| && GroupStep(ids)(groups[i]) == Err(m.error);
    var items := Split(groups[i], ':');
    var k :| 0 <= k < |items| && TokenStep(ids)(items[k]) == Err(m.error);
    assert items[k] in Items(expr);
    assert items[k] in Names(expr);
  }

  lemma SubstituteFound(ids: map<string, string>, expr: string)
    requires forall t :: t in Items(expr) <==> exists i :: 0 <= i < |Split(expr, ',')| && t in Split(Split(expr, ',')[i], ':')
    requires SubstituteIds(ids, expr).Ok?
    ensures Names(expr) <= ids.Keys
  {
    var groups := Split(expr, ',');
    forall t | t in Names(expr)
      ensures t in ids
    {
      var i :| 0 <= i < |groups| && t in Split(groups[i], ':');
      var items := Split(groups[i], ':');
      var k :| 0 <= k < |items| && items[k] == t;
      assert GroupStep(ids)(groups[i]).Ok?;
      assert TokenStep(ids)(items[k]).Ok?;
    }
  }

  /** Joining pieces that lack a character that is not the separator gives
      a string that lacks it. */
  lemma {:induction false} JoinOmits(parts: seq<string>, sep: char, c: char)
    requires c != sep
    requires forall i :: 0 <= i < |parts| ==> c !in parts[i]
    ensures c !in Join(parts, sep)
  {
    if |parts| > 1 {
      JoinOmits(parts[1..], sep, c);
    }
  }

  /** `update_dependency` keeps the shape of the expression: as many
      `,`-groups, as many `:`-tokens in each, every keyword where it was and
      every other token replaced by its id (ids being free of `,` and `:`). */
  lemma SubstituteShape(ids: map<string, string>, expr: string)
    requires forall n :: n in ids ==> ',' !in ids[n] && ':' !in ids[n]
    requires SubstituteIds(ids, expr).Ok?
    ensures var groups := Split(expr, ',');
            var outGroups := Split(SubstituteIds(ids, expr).value, ',');
            && |outGroups| == |groups|
            && forall i :: 0 <= i < |groups| ==>
                 var items := Split(groups[i], ':');
                 var outItems := Split(outGroups[i], ':');
                 && |outItems| == |items|
                 && forall k :: 0 <= k < |items| ==>
                      && (items[k] in Keywords ==> outItems[k] == items[k])
                      && (items[k] !in Keywords ==> items[k] in ids && outItems[k] == ids[items[k]])
  {
    var groups := Split(expr, ',');
    var outs := MapResult(groups, GroupStep(ids)).value;
    forall i | 0 <= i < |groups|
      ensures ',' !in outs[i]
      ensures var items := Split(groups[i], ':');
              var outItems := Split(outs[i], ':');
              && |outItems| == |items|
              && forall k :: 0 <= k < |items| ==>
                   && (items[k] in Keywords ==> outItems[k] == items[k])
                   && (items[k] !in Keywords ==> items[k] in ids && outItems[k] == ids[items[k]])
    {
      GroupShape(ids, groups[i]);
    }
    SplitJoin(outs, ',');
  }

  lemma GroupShape(ids: map<string, string>, part: string)
    requires forall n :: n in ids ==> ',' !in ids[n] && ':' !in ids[n]
    requires ',' !in part
    requires SubstituteGroup(ids, part).Ok?
    ensures ',' !in SubstituteGroup(ids, part).value
    ensures var items := Split(part, ':');
            var outItems := Split(SubstituteGroup(ids, part).value, ':');
            && |outItems| == |items|
            && forall k :: 0 <= k < |items| ==>
                 && (items[k] in Keywords ==> outItems[k] == items[k])
                 && (items[k] !in Keywords ==> items[k] in ids && outItems[k] == ids[items[k]])
  {
    var items := Split(part, ':');
    var sub := MapResult(items, TokenStep(ids)).value;
    forall k | 0 <= k < |items|
      ensures ',' !in sub[k] && ':' !in sub[k]
    {
      assert SubstituteToken(ids, items[k]) == Ok(sub[k]);
      SplitAnyOmits(part, {':'}, ',');
    }
    JoinOmits(sub, ':', ',');
    SplitJoin(sub, ':');
  }

  // ---------------------------------------------------------------------
  // `format_task`.

  /** The tokens `format_task(task, name)` builds (sdepend.py:93-105): the
      command's words with `sbatch` and `--parsable` added where missing and,
      when `dependency.get(name)` is not None, `--depend=<ids>` at index 2. */
  function FormatParts(dep: map<string, string>, ids: map<string, string>, task: string, name: string): Result<seq<string>>
  {
    var parts := AddSubmitFlags(Words(task));
    if name !in dep then Ok(parts)
    else
      match SubstituteIds(ids, dep[name])
      case Err(e) => Err(e)
      case Ok(s) => Ok(Insert(parts, 2, DependOption + s))
  }

  /** `" ".join(parts)` of those tokens. */
  function FormatCommand(dep: map<string, string>, ids: map<string, string>, task: string, name: string): Result<string>
  {
    match FormatParts(dep, ids, task, name)
    case Err(e) => Err(e)
    case Ok(parts) => Ok(Join(parts, ' '))
  }

  /** The flag `format_task` adds: `--depend=` and the substituted expression
      at index 2 for a key of `dependency`, nothing for any other task. */
  lemma DependFlag(dep: map<string, string>, ids: map<string, string>, task: string, name: string)
    ensures name !in dep ==> FormatParts(dep, ids, task, name) == Ok(AddSubmitFlags(Words(task)))
    ensures name in dep ==> (FormatParts(dep, ids, task, name).Ok? <==> SubstituteIds(ids, dep[name]).Ok?)
    ensures name in dep && SubstituteIds(ids, dep[name]).Ok? ==>
              var parts := FormatParts(dep, ids, task, name).value;
              |parts| > 2 && parts[2] == DependOption + SubstituteIds(ids, dep[name]).value
  {
    var parts := AddSubmitFlags(Words(task));
    var a :| 0 <= a < |parts| && parts[a] == Sbatch;
    var b :| 0 <= b < |parts| && parts[b] == Parsable;
    assert a != b;
  }

  /** Every token after flag insertion was a token before or is one of the
      two flags. */
  lemma FlagsFrom(parts: seq<string>)
    ensures forall t :: t in AddSubmitFlags(parts) ==> t in parts || t == Sbatch || t == Parsable
  {
    var withSbatch := if Sbatch in parts then parts else Insert(parts, 0, Sbatch);
    assert forall t :: t in withSbatch ==> t in multiset(withSbatch);
    assert forall t :: t in withSbatch ==> t in parts || t == Sbatch;
    if Parsable !in withSbatch {
      var r := Insert(withSbatch, 1, Parsable);
      assert forall t :: t in r ==> t in multiset(r);
    }
  }

  /** Joining text free of whitespace with a separator that is not
      whitespace gives text free of whitespace. */
  lemma {:induction false} JoinNoSpace(parts: seq<string>, sep: char)
    requires !IsSpace(sep)
    requires forall i, k :: 0 <= i < |parts| && 0 <= k < |parts[i]| ==> !IsSpace(parts[i][k])
    ensures forall k :: 0 <= k < |Join(parts, sep)| ==> !IsSpace(Join(parts, sep)[k])
  {
    if |parts| > 1 {
      JoinNoSpace(parts[1..], sep);
      var rest := Join(parts[1..], sep);
      var s := Join(parts, sep);
      assert s == parts[0] + [sep] + rest;
      forall k | 0 <= k < |s|
        ensures !IsSpace(s[k])
      {
        if k < |parts[0]| {
          assert s[k] == parts[0][k];
        } else if k > |parts[0]| {
          assert s[k] == rest[k - |parts[0]| - 1];
        }
      }
    }
  }

  /** With ids free of whitespace, the substituted expression is too. */
  lemma SubstituteNoSpace(ids: map<string, string>, expr: string)
    requires forall n, k :: n in ids && 0 <= k < |ids[n]| ==> !IsSpace(ids[n][k])
    requires SubstituteIds(ids, expr).Ok?
    ensures forall k :: 0 <= k < |SubstituteIds(ids, expr).value| ==> !IsSpace(SubstituteIds(ids, expr).value[k])
  {
    var groups := Split(expr, ',');
    var outs := MapResult(groups, GroupStep(ids)).value;
    forall i, k | 0 <= i < |outs| && 0 <= k < |outs[i]|
      ensures !IsSpace(outs[i][k])
    {
      GroupNoSpace(ids, groups[i]);
    }
    JoinNoSpace(outs, ',');
  }

  lemma GroupNoSpace(ids: map<string, string>, part: string)
    requires forall n, k :: n in ids && 0 <= k < |ids[n]| ==> !IsSpace(ids[n][k])
    requires SubstituteGroup(ids, part).Ok?
    ensures forall k :: 0 <= k < |SubstituteGroup(ids, part).value| ==> !IsSpace(SubstituteGroup(ids, part).value[k])
  {
    var items := Split(part, ':');
    var sub := MapResult(items, TokenStep(ids)).value;
    forall i, k | 0 <= i < |sub| && 0 <= k < |sub[i]|
      ensures !IsSpace(sub[i][k])
    {
      assert SubstituteToken(ids, items[i]) == Ok(sub[i]);
      if items[i] in Keywords {
        KeywordsNoSpace(items[i]);
      }
    }
    JoinNoSpace(sub, ':');
  }

  lemma KeywordsNoSpace(w: string)
    requires w in Keywords
    ensures forall k :: 0 <= k < |w| ==> !IsSpace(w[k])
  {
  }

  /** What `process` submits is `task.split()` of the joined command: the very
      tokens `format_task` built, as long as the recorded ids hold no
      whitespace. */
  lemma ResplitCommand(dep: map<string, string>, ids: map<string, string>, task: string, name: string)
    requires forall n, k :: n in ids && 0 <= k < |ids[n]| ==> !IsSpace(ids[n][k])
    requires FormatParts(dep, ids, task, name).Ok?
    ensures Words(FormatCommand(dep, ids, task, name).value) == FormatParts(dep, ids, task, name).value
  {
    var words := Words(task);
    WordsAreWords(task);
    FlaggedWords(words);
    if name in dep {
      var s := SubstituteIds(ids, dep[name]).value;
      SubstituteNoSpace(ids, dep[name]);
      FlagWord(s);
      InsertWords(AddSubmitFlags(words), 2, DependOption + s);
    }
    WordsJoin(FormatParts(dep, ids, task, name).value);
  }

  lemma FlaggedWords(words: seq<string>)
    requires forall i :: 0 <= i < |words| ==> IsWord(words[i])
    ensures forall i :: 0 <= i < |AddSubmitFlags(words)| ==> IsWord(AddSubmitFlags(words)[i])
  {
    var flagged := AddSubmitFlags(words);
    FlagsFrom(words);
    FlagsAreWords();
    forall i | 0 <= i < |flagged|
      ensures IsWord(flagged[i])
    {
      assert flagged[i] in flagged;
      if flagged[i] in words {
        MemberWord(words, flagged[i]);
      }
    }
  }

  lemma FlagsAreWords()
    ensures IsWord(Sbatch) && IsWord(Parsable)
  {
  }

  lemma MemberWord(words: seq<string>, w: string)
    requires forall i :: 0 <= i < |words| ==> IsWord(words[i])
    requires w in words
    ensures IsWord(w)
  {
    var i :| 0 <= i < |words| && words[i] == w;
  }

  lemma FlagWord(s: string)
    requires forall k :: 0 <= k < |s| ==> !IsSpace(s[k])
    ensures IsWord(DependOption + s)
  {
    var flag := DependOption + s;
    assert forall k :: 0 <= k < |DependOption| ==> flag[k] == DependOption[k];
    assert forall k :: |DependOption| <= k < |flag| ==> flag[k] == s[k - |DependOption|];
  }

  lemma InsertWords(parts: seq<string>, i: nat, x: string)
    requires forall k :: 0 <= k < |parts| ==> IsWord(parts[k])
    requires IsWord(x)
    ensures forall k :: 0 <= k < |Insert(parts, i, x)| ==> IsWord(Insert(parts, i, x)[k])
  {
    var r := Insert(parts, i, x);
    forall k | 0 <= k < |r|
      ensures IsWord(r[k])
    {
      assert r[k] in multiset(r);
      assert r[k] in parts || r[k] == x;
    }
  }

  // ---------------------------------------------------------------------
  // `submit` and `process`.

  /** `self.tasks.get(task_name, default_task)` as written (sdepend.py:76,110):
      `tasks` is stored as given, and when it is None, `None.get` raises
      AttributeError. */
  function TaskAsWritten(tasks: Option<map<string, string>>): string -> Result<string>
  {
    name => if tasks.None? then Err(NoTasksMapping)
            else Ok(if name in tasks.value then tasks.value[name] else DefaultTask)
  }

  /** The evidently intended lookup: without a `tasks` mapping every task runs
      the default command, as `Suite` does with `jobs or {}`. */
  function TaskFor(tasks: Option<map<string, string>>): string -> Result<string>
  {
    name => Ok(if tasks.Some? && name in tasks.value then tasks.value[name] else DefaultTask)
  }

  /** Where a pass of `submit` ends: `task_ids`, `jobs`, and the error that
      stopped it, if one did. */
  datatype Progress = Progress(ids: map<string, string>, jobs: map<string, string>, failure: Option<Error>)

  /** One iteration of `submit` for `name`, up to what it records: look the
      command up, format it with the ids recorded so far, submit its words
      (`process`) and strip the answer. The result is the id and the command. */
  function SubmitTask(lookup: string -> Result<string>, dep: map<string, string>, submitter: seq<string> -> Option<string>,
                      name: string, ids: map<string, string>): Result<(string, string)>
  {
    match lookup(name)
    case Err(e) => Err(e)
    case Ok(task) =>
      match FormatCommand(dep, ids, task, name)
      case Err(e) => Err(e)
      case Ok(command) => Submission(submitter, name, command)
  }

  /** `process(command, name)` up to what `submit` records: the stripped
      answer of the submitter to the command's words, and the command. */
  function Submission(submitter: seq<string> -> Option<string>, name: string, command: string): Result<(string, string)>
  {
    match submitter(Words(command))
    case None => Err(SubmissionFailed(name))
    case Some(output) => Ok((Strip(output), command))
  }

  /** The step of `submit` as a value, for Run. */
  function Submitting(lookup: string -> Result<string>, dep: map<string, string>, submitter: seq<string> -> Option<string>)
    : (string, map<string, string>) -> Result<(string, string)>
  {
    (name, ids) => SubmitTask(lookup, dep, submitter, name, ids)
  }

  /** The loop of `submit` over `order`: each iteration records the task's id
      and command; an error stops the pass and keeps what is recorded. */
  function Run(order: seq<string>, step: (string, map<string, string>) -> Result<(string, string)>,
               ids: map<string, string>, jobs: map<string, string>): Progress
  {
    if order == [] then Progress(ids, jobs, None)
    else
      var prev := Run(order[..|order| - 1], step, ids, jobs);
      if prev.failure.Some? then prev
      else
        var name := order[|order| - 1];
        match step(name, prev.ids)
        case Err(e) => Progress(prev.ids, prev.jobs, Some(e))
        case Ok(recorded) => Progress(prev.ids[name := recorded.0], prev.jobs[name := recorded.1], None)
  }

  /** Once a pass has failed, later tasks change nothing. */
  lemma {:induction false} RunFailed(order: seq<string>, k: nat, step: (string, map<string, string>) -> Result<(string, string)>,
                                     ids: map<string, string>, jobs: map<string, string>)
    requires k <= |order|
    requires Run(order[..k], step, ids, jobs).failure.Some?
    ensures Run(order, step, ids, jobs) == Run(order[..k], step, ids, jobs)
    decreases |order|
  {
    if k < |order| {
      var init := order[..|order| - 1];
      assert init[..k] == order[..k];
      RunFailed(init, k, step, ids, jobs);
    } else {
      assert order[..k] == order;
    }
  }

  /** A task whose iteration fails ends the pass with that error. */
  lemma RunStops(order: seq<string>, k: nat, step: (string, map<string, string>) -> Result<(string, string)>,
                 ids: map<string, string>, jobs: map<string, string>, e: Error)
    requires k < |order|
    requires Run(order[..k], step, ids, jobs).failure.None?
    requires step(order[k], Run(order[..k], step, ids, jobs).ids) == Err(e)
    ensures var before := Run(order[..k], step, ids, jobs);
            Run(order, step, ids, jobs) == Progress(before.ids, before.jobs, Some(e))
  {
    var head := order[..k + 1];
    assert head[..|head| - 1] == order[..k];
    RunFailed(order, k + 1, step, ids, jobs);
  }

  /** The step of the loop at index `k` when the task's iteration succeeds. */
  lemma RunExtends(order: seq<string>, k: nat, step: (string, map<string, string>) -> Result<(string, string)>,
                   ids: map<string, string>, jobs: map<string, string>)
    requires k < |order|
    requires Run(order[..k], step, ids, jobs).failure.None?
    requires step(order[k], Run(order[..k], step, ids, jobs).ids).Ok?
    ensures var before := Run(order[..k], step, ids, jobs);
            var recorded := step(order[k], before.ids).value;
            Run(order[..k + 1], step, ids, jobs) == Progress(before.ids[order[k] := recorded.0], before.jobs[order[k] := recorded.1], None)
  {
    var head := order[..k + 1];
    assert head[..|head| - 1] == order[..k];
  }

  /** After a pass over a prefix that did not fail, every task of the prefix
      has an id and every id recorded before the pass is still there. */
  lemma {:induction false} RunRegistered(order: seq<string>, i: nat, step: (string, map<string, string>) -> Result<(string, string)>,
                                         ids: map<string, string>, jobs: map<string, string>)
    requires i <= |order|
    requires Run(order[..i], step, ids, jobs).failure.None?
    ensures forall j :: 0 <= j < i ==> order[j] in Run(order[..i], step, ids, jobs).ids
    ensures ids.Keys <= Run(order[..i], step, ids, jobs).ids.Keys
  {
    if i > 0 {
      var prefix := order[..i];
      assert prefix[..|prefix| - 1] == order[..i - 1];
      RunRegistered(order, i - 1, step, ids, jobs);
    }
  }

  /** The id and the command recorded for the task of step `i`: the stripped
      answer of the submitter to the words of the formatted command. */
  lemma RunRecords(order: seq<string>, i: nat, lookup: string -> Result<string>, dep: map<string, string>,
                   submitter: seq<string> -> Option<string>, ids: map<string, string>, jobs: map<string, string>)
    requires i < |order|
    requires Run(order[..i + 1], Submitting(lookup, dep, submitter), ids, jobs).failure.None?
    ensures var before := Run(order[..i], Submitting(lookup, dep, submitter), ids, jobs);
            var after := Run(order[..i + 1], Submitting(lookup, dep, submitter), ids, jobs);
            && before.failure.None?
            && lookup(order[i]).Ok?
            && FormatCommand(dep, before.ids, lookup(order[i]).value, order[i]).Ok?
            && var command := FormatCommand(dep, before.ids, lookup(order[i]).value, order[i]).value;
               && submitter(Words(command)).Some?
               && after.ids == before.ids[order[i] := Strip(submitter(Words(command)).value)]
               && after.jobs == before.jobs[order[i] := command]
  {
    var step := Submitting(lookup, dep, submitter);
    var prefix := order[..i + 1];
    assert prefix[..|prefix| - 1] == order[..i];
    var before := Run(order[..i], step, ids, jobs);
    assert before.failure.None?;
    assert step(order[i], before.ids).Ok?;
    RunExtends(order, i, step, ids, jobs);
  }

  /** When `submit` follows `task_ordering`, `update_dependency` never misses
      an id: every name in a task's expression is a predecessor of the task in
      the transformed graph, so it came earlier in the order and was recorded
      by this pass. */
  lemma PredecessorIds(order: seq<string>, i: nat, step: (string, map<string, string>) -> Result<(string, string)>,
                       dep: map<string, string>, ids: map<string, string>, jobs: map<string, string>)
    requires Ordering.IsTopologicalOrder(Transformed(dep), order)
    requires i < |order|
    requires Run(order[..i], step, ids, jobs).failure.None?
    ensures order[i] in dep ==> SubstituteIds(Run(order[..i], step, ids, jobs).ids, dep[order[i]]).Ok?
  {
    var name := order[i];
    if name in dep {
      var g := Transformed(dep);
      var before := Run(order[..i], step, ids, jobs).ids;
      RunRegistered(order, i, step, ids, jobs);
      forall t | t in Names(dep[name])
        ensures t in before
      {
        TransformMeaning(dep);
        assert t in Ordering.Nodes(g);
        var j :| 0 <= j < |order| && order[j] == t;
        assert j < i;
      }
      SubstituteDefined(before, dep[name]);
    }
  }

  /** With the corrected lookup, one iteration whose ids cover the task's
      expression can only fail in the submission. */
  lemma StepFailure(tasks: Option<map<string, string>>, dep: map<string, string>, submitter: seq<string> -> Option<string>,
                    name: string, ids: map<string, string>)
    requires name in dep ==> SubstituteIds(ids, dep[name]).Ok?
    ensures var r := SubmitTask(TaskFor(tasks), dep, submitter, name, ids);
            r.Err? ==> r.error == SubmissionFailed(name)
  {
    DependFlag(dep, ids, TaskFor(tasks)(name).value, name);
  }

  /** The error a pass ends with comes from the step of one of its tasks. */
  lemma RunFailure(order: seq<string>, i: nat, step: (string, map<string, string>) -> Result<(string, string)>,
                   ids: map<string, string>, jobs: map<string, string>)
    requires 0 < i <= |order|
    requires Run(order[..i], step, ids, jobs).failure.Some?
    ensures var prev := Run(order[..i - 1], step, ids, jobs);
            || prev.failure == Run(order[..i], step, ids, jobs).failure
            || (prev.failure.None? && step(order[i - 1], prev.ids) == Err(Run(order[..i], step, ids, jobs).failure.value))
  {
    var prefix := order[..i];
    assert prefix[..|prefix| - 1] == order[..i - 1];
  }

  /** With the corrected lookup, a pass of `submit` along `task_ordering`
      can only stop because a submission failed: neither the lookup nor
      `update_dependency` raises. */
  lemma {:induction false} OnlySubmissionFails(order: seq<string>, i: nat, tasks: Option<map<string, string>>, dep: map<string, string>,
                                               submitter: seq<string> -> Option<string>, ids: map<string, string>, jobs: map<string, string>)
    requires Ordering.IsTopologicalOrder(Transformed(dep), order)
    requires i <= |order|
    ensures var p := Run(order[..i], Submitting(TaskFor(tasks), dep, submitter), ids, jobs);
            p.failure.Some? ==> p.failure.value.SubmissionFailed?
  {
    var step := Submitting(TaskFor(tasks), dep, submitter);
    if i > 0 && Run(order[..i], step, ids, jobs).failure.Some? {
      OnlySubmissionFails(order, i - 1, tasks, dep, submitter, ids, jobs);
      RunFailure(order, i, step, ids, jobs);
      if Run(order[..i - 1], step, ids, jobs).failure.None? {
        LastSubmissionFails(order, i - 1, tasks, dep, submitter, ids, jobs);
      }
    }
  }

  /** The step of one task along `task_ordering`, with the corrected lookup,
      fails only in the submission. */
  lemma LastSubmissionFails(order: seq<string>, i: nat, tasks: Option<map<string, string>>, dep: map<string, string>,
                            submitter: seq<string> -> Option<string>, ids: map<string, string>, jobs: map<string, string>)
    requires Ordering.IsTopologicalOrder(Transformed(dep), order)
    requires i < |order|
    requires Run(order[..i], Submitting(TaskFor(tasks), dep, submitter), ids, jobs).failure.None?
    ensures var last := Submitting(TaskFor(tasks), dep, submitter)(order[i], Run(order[..i], Submitting(TaskFor(tasks), dep, submitter), ids, jobs).ids);
            last.Err? ==> last.error.SubmissionFailed?
  {
    var step := Submitting(TaskFor(tasks), dep, submitter);
    PredecessorIds(order, i, step, dep, ids, jobs);
    StepFailure(tasks, dep, submitter, order[i], Run(order[..i], step, ids, jobs).ids);
  }

  /** Two steps that agree give the same pass. */
  lemma {:induction false} RunSameStep(order: seq<string>, f: (string, map<string, string>) -> Result<(string, string)>,
                                       h: (string, map<string, string>) -> Result<(string, string)>,
                                       ids: map<string, string>, jobs: map<string, string>)
    requires forall n, m :: f(n, m) == h(n, m)
    ensures Run(order, f, ids, jobs) == Run(order, h, ids, jobs)
  {
    if order != [] {
      RunSameStep(order[..|order| - 1], f, h, ids, jobs);
    }
  }

  /** As written, `submit` without a `tasks` mapping raises at its first task
      and records nothing. */
  lemma NoTasksRaises(order: seq<string>, dep: map<string, string>, submitter: seq<string> -> Option<string>,
                      ids: map<string, string>, jobs: map<string, string>)
    requires order != []
    ensures Run(order, Submitting(TaskAsWritten(None), dep, submitter), ids, jobs) == Progress(ids, jobs, Some(NoTasksMapping))
  {
    var step := Submitting(TaskAsWritten(None), dep, submitter);
    assert order[..0] == [];
    RunStops(order, 0, step, ids, jobs, NoTasksMapping);
  }

  /** Lookups that agree give steps that agree. */
  lemma SameLookup(f: string -> Result<string>, h: string -> Result<string>, dep: map<string, string>,
                   submitter: seq<string> -> Option<string>)
    requires forall n :: f(n) == h(n)
    ensures forall n, m :: Submitting(f, dep, submitter)(n, m) == Submitting(h, dep, submitter)(n, m)
  {
  }

  /** The correction changes nothing when a `tasks` mapping is given, and
      without one it behaves as the empty mapping. */
  lemma CorrectedLookup(order: seq<string>, tasks: Option<map<string, string>>, dep: map<string, string>,
                        submitter: seq<string> -> Option<string>, ids: map<string, string>, jobs: map<string, string>)
    ensures tasks.Some? ==> Run(order, Submitting(TaskFor(tasks), dep, submitter), ids, jobs)
                            == Run(order, Submitting(TaskAsWritten(tasks), dep, submitter), ids, jobs)
    ensures Run(order, Submitting(TaskFor(None), dep, submitter), ids, jobs)
            == Run(order, Submitting(TaskAsWritten(Some(map[])), dep, submitter), ids, jobs)
  {
    if tasks.Some? {
      SameLookup(TaskFor(tasks), TaskAsWritten(tasks), dep, submitter);
      RunSameStep(order, Submitting(TaskFor(tasks), dep, submitter), Submitting(TaskAsWritten(tasks), dep, submitter), ids, jobs);
    }
    SameLookup(TaskFor(None), TaskAsWritten(Some(map[])), dep, submitter);
    RunSameStep(order, Submitting(TaskFor(None), dep, submitter), Submitting(TaskAsWritten(Some(map[])), dep, submitter), ids, jobs);
  }

  class SDepend {
    var dependency: map<string, string>
    var tasks: Option<map<string, string>>
    var taskIds: map<string, string>
    var jobs: map<string, string>

    /** `sDepend(dependency, tasks)` (sdepend.py:74-78). */
    constructor(dependency: map<string, string>, tasks: Option<map<string, string>>)
      ensures this.dependency == dependency && this.tasks == tasks
      ensures taskIds == map[] && jobs == map[]
    {
      this.dependency := dependency;
      this.tasks := tasks;
      taskIds := map[];
      jobs := map[];
    }

    /** `update_dependency(task_dependency)` (sdepend.py:80-91): the two
        nested loops over `,`-groups and `:`-tokens. */
    method UpdateDependency(expr: string) returns (r: Result<string>)
      ensures r == SubstituteIds(taskIds, expr)
    {
      var parts := Split(expr, ',');
      ghost var groupStep := GroupStep(taskIds);
      var result: seq<string> := [];
      for i := 0 to |parts|
        invariant MapResult(parts[..i], groupStep) == Ok(result)
      {
        var group := UpdateGroup(parts[i]);
        if group.Err? {
          FirstFailure(parts, i, groupStep, group.error);
          return Err(group.error);
        }
        ExtendPrefix(parts, i, groupStep, result);
        result := result + [group.value];
      }
      assert parts[..|parts|] == parts;
      return Ok(Join(result, ','));
    }

    /** The inner loop of `update_dependency`, over the `:`-tokens of one
        `,`-group. */
    method UpdateGroup(part: string) returns (r: Result<string>)
      ensures r == SubstituteGroup(taskIds, part)
    {
      var items := Split(part, ':');
      ghost var tokenStep := TokenStep(taskIds);
      var sub: seq<string> := [];
      for k := 0 to |items|
        invariant MapResult(items[..k], tokenStep) == Ok(sub)
      {
        var item := items[k];
        if item in Keywords {
          ExtendPrefix(items, k, tokenStep, sub);
          sub := sub + [item];
        } else if item in taskIds {
          ExtendPrefix(items, k, tokenStep, sub);
          sub := sub + [taskIds[item]];
        } else {
          FirstFailure(items, k, tokenStep, KeyError(item));
          return Err(KeyError(item));
        }
      }
      assert items[..|items|] == items;
      return Ok(Join(sub, ':'));
    }

    /** `format_task(task, task_name)` (sdepend.py:93-105). */
    method FormatTask(task: string, name: string) returns (r: Result<string>)
      ensures r == FormatCommand(dependency, taskIds, task, name)
    {
      var parts := Words(task);
      if Sbatch !in parts {
        parts := Insert(parts, 0, Sbatch);
      }
      if Parsable !in parts {
        parts := Insert(parts, 1, Parsable);
      }
      if name !in dependency {
        return Ok(Join(parts, ' '));
      }
      var dep := UpdateDependency(dependency[name]);
      if dep.Err? {
        return Err(dep.error);
      }
      parts := Insert(parts, 2, DependOption + dep.value);
      return Ok(Join(parts, ' '));
    }

    /** `process(task, task_name)` (sdepend.py:115-121): submit the command's
        words and record the stripped answer. */
    method Process(task: string, name: string, submitter: seq<string> -> Option<string>) returns (r: Result<()>)
      modifies this`taskIds
      ensures submitter(Words(task)).None? ==> r == Err(SubmissionFailed(name)) && taskIds == old(taskIds)
      ensures submitter(Words(task)).Some? ==> r == Ok(()) && taskIds == old(taskIds)[name := Strip(submitter(Words(task)).value)]
      ensures r == (match Submission(submitter, name, task) case Err(e) => Err(e) case Ok(_) => Ok(()))
    {
      var output := submitter(Words(task));
      if output.None? {
        return Err(SubmissionFailed(name));
      }
      taskIds := taskIds[name := Strip(output.value)];
      return Ok(());
    }

    /** `submit()` (sdepend.py:107-113), with the corrected lookup: in
        `task_ordering` order, format each task's command, process it and
        record the command. A cycle changes nothing; an error in the loop
        keeps what is recorded. */
    method Submit(submitter: seq<string> -> Option<string>) returns (r: Result<()>, ghost order: seq<string>)
      modifies this`taskIds, this`jobs
      ensures Ordering.Cyclic(Transformed(old(dependency))) ==> r == Err(CycleError) && taskIds == old(taskIds) && jobs == old(jobs)
      ensures !Ordering.Cyclic(Transformed(old(dependency))) ==> Ordering.IsTopologicalOrder(Transformed(old(dependency)), order)
      ensures !Ordering.Cyclic(Transformed(old(dependency))) ==>
                Run(order, Submitting(TaskFor(old(tasks)), old(dependency), submitter), old(taskIds), old(jobs)) ==
                Progress(taskIds, jobs, if r.Ok? then None else Some(r.error))
    {
      var ordering := TaskOrdering(dependency);
      if ordering.Err? {
        return Err(ordering.error), [];
      }
      var names := ordering.value;
      order := names;
      r := SubmitEach(names, submitter);
    }

    /** The loop of `submit` over `names`. */
    method SubmitEach(names: seq<string>, submitter: seq<string> -> Option<string>) returns (r: Result<()>)
      modifies this`taskIds, this`jobs
      ensures Run(names, Submitting(TaskFor(old(tasks)), old(dependency), submitter), old(taskIds), old(jobs)) ==
              Progress(taskIds, jobs, if r.Ok? then None else Some(r.error))
    {
      ghost var step := Submitting(TaskFor(tasks), dependency, submitter);
      ghost var ids0 := taskIds;
      ghost var jobs0 := jobs;
      for k := 0 to |names|
        invariant Run(names[..k], step, ids0, jobs0) == Progress(taskIds, jobs, None)
      {
        var done := SubmitOne(names[k], submitter);
        if done.Err? {
          RunStops(names, k, step, ids0, jobs0, done.error);
          return done;
        }
        RunExtends(names, k, step, ids0, jobs0);
      }
      assert names[..|names|] == names;
      return Ok(());
    }

    /** One iteration of `submit`: format the task's command, process it and
        record the command. */
    method SubmitOne(name: string, submitter: seq<string> -> Option<string>) returns (r: Result<()>)
      modifies this`taskIds, this`jobs
      ensures var step := SubmitTask(TaskFor(old(tasks)), old(dependency), submitter, name, old(taskIds));
              && (step.Err? ==> r == Err(step.error) && taskIds == old(taskIds) && jobs == old(jobs))
              && (step.Ok? ==> r == Ok(()) && taskIds == old(taskIds)[name := step.value.0]
                                            && jobs == old(jobs)[name := step.value.1])
    {
      ghost var step := SubmitTask(TaskFor(tasks), dependency, submitter, name, taskIds);
      var task := if tasks.Some? && name in tasks.value then tasks.value[name] else DefaultTask;
      var command := FormatTask(task, name);
      if command.Err? {
        assert step == Err(command.error) by {
          assert TaskFor(tasks)(name) == Ok(task);
        }
        return Err(command.error);
      }
      assert step == Submission(submitter, name, command.value) by {
        assert TaskFor(tasks)(name) == Ok(task);
      }
      r := Process(command.value, name, submitter);
      if r.Ok? {
        jobs := jobs[name := command.value];
      }
    }
  }

  /** The module's `submit(dependency, tasks)` (sdepend.py:37-40). */
  method SubmitDependency(dep: map<string, string>, tasks: Option<map<string, string>>, submitter: seq<string> -> Option<string>)
    returns (s: SDepend, r: Result<()>, ghost order: seq<string>)
    ensures fresh(s) && s.dependency == dep && s.tasks == tasks
    ensures Ordering.Cyclic(Transformed(dep)) ==> r == Err(CycleError) && s.taskIds == map[] && s.jobs == map[]
    ensures !Ordering.Cyclic(Transformed(dep)) ==> Ordering.IsTopologicalOrder(Transformed(dep), order)
    ensures !Ordering.Cyclic(Transformed(dep)) ==>
              Run(order, Submitting(TaskFor(tasks), dep, submitter), map[], map[]) == Progress(s.taskIds, s.jobs, if r.Ok? then None else Some(r.error))
  {
    s := new SDepend(dep, tasks);
    r, order := s.Submit(submitter);
  }
}
