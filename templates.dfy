/** `template.format_map(Default(job_ids))` (sworkflow/suite.py:91) for the
    templates `as_placeholder` makes: every `{name}` field is replaced by the
    registered id of `name`, and `Default.__missing__` (sworkflow/utils.py:124-126)
    answers a name without an id with the field itself, so it survives. */
module Templates {
  import opened Wrappers
  import opened Text
  import opened Utils
  import opened Placeholders

  /** `Default(ids)[key]`: the id, or `{key}` when the key is missing. */
  function Lookup(ids: map<string, string>, key: string): string
  {
    if key in ids then ids[key] else "{" + key + "}"
  }

  /** The position of the first `c` in `s`, if any. */
  function FirstIndex(s: string, c: char): (r: Option<nat>)
    ensures r.Some? ==> r.value < |s| && s[r.value] == c && c !in s[..r.value]
    ensures r.None? ==> c !in s
  {
    if s == [] then None
    else if s[0] == c then Some(0)
    else
      match FirstIndex(s[1..], c)
      case None => None
      case Some(j) =>
        assert s[..j + 1] == [s[0]] + s[1..][..j];
        Some(j + 1)
  }

  function Prepend(s: string, r: Result<string>): Result<string>
  {
    match r
    case Err(e) => Err(e)
    case Ok(t) => Ok(s + t)
  }

  /** A field `format_map` looks up whole in the mapping: not empty (that
      would be an automatically numbered positional field), not all digits (a
      positional index), free of braces, and free of `.`, `[`, `!` and `:`,
      which would start an attribute, an index, a conversion or a format spec. */
  predicate FieldName(name: string)
  {
    && name != []
    && (exists k :: 0 <= k < |name| && !('0' <= name[k] <= '9'))
    && '{' !in name && '}' !in name
    && '.' !in name && '[' !in name && '!' !in name && ':' !in name
  }

  /** `str.format_map` restricted to plain fields: `{{` and `}}` are escapes
      for one brace, `{name}` is replaced by `Lookup(ids, name)`, and a lone
      `}`, an unclosed `{` or any other field is an error. */
  function Instantiate(t: string, ids: map<string, string>): Result<string>
    decreases |t|
  {
    if t == [] then Ok([])
    else if t[0] == '{' then
      if |t| > 1 && t[1] == '{' then Prepend("{", Instantiate(t[2..], ids))
      else
        match FirstIndex(t[1..], '}')
        case None => Err(FormatError)
        case Some(j) =>
          var name := t[1..j + 1];
          if FieldName(name) then Prepend(Lookup(ids, name), Instantiate(t[j + 2..], ids))
          else Err(FormatError)
    else if t[0] == '}' then
      if |t| > 1 && t[1] == '}' then Prepend("}", Instantiate(t[2..], ids))
      else Err(FormatError)
    else Prepend([t[0]], Instantiate(t[1..], ids))
  }

  /** Text without braces is left as it is. */
  lemma {:induction false} InstantiatePlain(t: string, ids: map<string, string>)
    requires '{' !in t && '}' !in t
    ensures Instantiate(t, ids) == Ok(t)
  {
    if t != [] {
      InstantiatePlain(t[1..], ids);
      assert [t[0]] + t[1..] == t;
    }
  }

  /** A field with a proper name is replaced by its lookup. */
  lemma InstantiateField(name: string, rest: string, ids: map<string, string>)
    requires FieldName(name)
    ensures Instantiate("{" + name + "}" + rest, ids) == Prepend(Lookup(ids, name), Instantiate(rest, ids))
  {
    var t := "{" + name + "}" + rest;
    FieldParts(name, rest);
    InstantiateOpen(t, ids, |name|);
  }

  /** How a field `{name}` followed by `rest` reads. */
  lemma FieldParts(name: string, rest: string)
    requires FieldName(name)
    ensures var t := "{" + name + "}" + rest;
            && |t| > 1 && t[0] == '{' && t[1] != '{'
            && FirstIndex(t[1..], '}') == Some(|name|)
            && t[1..|name| + 1] == name && t[|name| + 2..] == rest
  {
    var t := "{" + name + "}" + rest;
    assert t[1] == name[0];
    assert t[1..] == name + ['}'] + rest;
    FirstIndexAt(name, '}', rest);
    assert t[1..|name| + 1] == name;
    assert t[|name| + 2..] == rest;
  }

  /** One step of `Instantiate` at a field. */
  lemma InstantiateOpen(t: string, ids: map<string, string>, j: nat)
    requires |t| > 1 && t[0] == '{' && t[1] != '{'
    requires FirstIndex(t[1..], '}') == Some(j) && FieldName(t[1..j + 1])
    ensures Instantiate(t, ids) == Prepend(Lookup(ids, t[1..j + 1]), Instantiate(t[j + 2..], ids))
  {
  }

  /** The first `c` after a prefix free of `c`. */
  lemma {:induction false} FirstIndexAt(p: string, c: char, rest: string)
    requires c !in p
    ensures FirstIndex(p + [c] + rest, c) == Some(|p|)
  {
    var s := p + [c] + rest;
    if p == [] {
      assert s[0] == c;
    } else {
      assert s[0] == p[0] && s[1..] == p[1..] + [c] + rest;
      FirstIndexAt(p[1..], c, rest);
    }
  }

  /** The first `c` of `s` is still the first in any extension of `s`. */
  lemma FirstIndexAppend(s: string, u: string, c: char)
    requires FirstIndex(s, c).Some?
    ensures FirstIndex(s + u, c) == FirstIndex(s, c)
  {
    var j := FirstIndex(s, c).value;
    assert s == s[..j] + [c] + s[j + 1..];
    assert s + u == s[..j] + [c] + (s[j + 1..] + u);
    FirstIndexAt(s[..j], c, s[j + 1..] + u);
  }

  lemma PrependPrepend(x: string, y: string, r: Result<string>)
    ensures Prepend(x, Prepend(y, r)) == Prepend(x + y, r)
  {
    match r
    case Err(e) =>
    case Ok(t) => assert x + (y + t) == x + y + t;
  }

  /** A template that instantiates cleanly can be continued: the text after
      it is instantiated on its own and appended. */
  lemma {:induction false} InstantiateAppend(a: string, b: string, ids: map<string, string>)
    requires Instantiate(a, ids).Ok?
    ensures Instantiate(a + b, ids) == Prepend(Instantiate(a, ids).value, Instantiate(b, ids))
    decreases |a|
  {
    var t := a + b;
    if a == [] {
      assert t == b;
      match Instantiate(b, ids)
      case Err(e) =>
      case Ok(v) => assert [] + v == v;
    } else if a[0] == '{' && |a| > 1 && a[1] == '{' {
      assert t[0] == '{' && t[1] == '{' && t[2..] == a[2..] + b;
      InstantiateAppend(a[2..], b, ids);
      PrependPrepend("{", Instantiate(a[2..], ids).value, Instantiate(b, ids));
    } else if a[0] == '{' {
      var j := FirstIndex(a[1..], '}').value;
      assert t[1..] == a[1..] + b;
      FirstIndexAppend(a[1..], b, '}');
      assert |a| > 1 ==> t[1] == a[1];
      assert t[1..j + 1] == a[1..j + 1];
      assert t[j + 2..] == a[j + 2..] + b;
      InstantiateAppend(a[j + 2..], b, ids);
      PrependPrepend(Lookup(ids, a[1..j + 1]), Instantiate(a[j + 2..], ids).value, Instantiate(b, ids));
    } else if a[0] == '}' {
      assert t[0] == '}' && t[1] == '}' && t[2..] == a[2..] + b;
      InstantiateAppend(a[2..], b, ids);
      PrependPrepend("}", Instantiate(a[2..], ids).value, Instantiate(b, ids));
    } else {
      assert t[0] == a[0] && t[1..] == a[1..] + b;
      InstantiateAppend(a[1..], b, ids);
      PrependPrepend([a[0]], Instantiate(a[1..], ids).value, Instantiate(b, ids));
    }
  }

  // ---------------------------------------------------------------------
  // What instantiating an `as_placeholder` template gives.

  /** What one reference token becomes once its field is looked up: the id
      (or the field itself, when there is none) followed by the suffix. */
  function ResolveReference(tok: string, ids: map<string, string>): string
  {
    match ParseReference(tok)
    case Err(_) => tok
    case Ok(r) => Lookup(ids, r.name) + SuffixText(r.suffix)
  }

  /** One `:`-job with its references resolved and its type kept. */
  function ResolveJob(job: string, ids: map<string, string>): string
  {
    var items := Split(job, ':');
    Join([items[0]] + ResolveReferences(items[1..], ids), ':')
  }

  function ResolveReferences(names: seq<string>, ids: map<string, string>): seq<string>
  {
    seq(|names|, k requires 0 <= k < |names| => ResolveReference(names[k], ids))
  }

  function ResolveGroup(group: string, ids: map<string, string>): string
  {
    var jobs := Split(group, '?');
    Join(seq(|jobs|, i requires 0 <= i < |jobs| => ResolveJob(jobs[i], ids)), '?')
  }

  /** The expression with every reference's name replaced by `Lookup`. */
  function Resolve(expr: string, ids: map<string, string>): string
  {
    var groups := Split(expr, ',');
    Join(seq(|groups|, i requires 0 <= i < |groups| => ResolveGroup(groups[i], ids)), ',')
  }

  /** A reference token whose name `format_map` can look up. */
  predicate ValidField(tok: string)
  {
    ParseReference(tok).Ok? && FieldName(ParseReference(tok).value.name)
  }

  /** `p` holds of every reference token (every `:`-token after the first of
      every `?`-alternative of every `,`-group) of `expr`. */
  predicate EveryReference(expr: string, p: string -> bool)
  {
    var groups := Split(expr, ',');
    forall i :: 0 <= i < |groups| ==> GroupReferences(groups[i], p)
  }

  predicate GroupReferences(group: string, p: string -> bool)
  {
    var jobs := Split(group, '?');
    forall i :: 0 <= i < |jobs| ==> JobReferences(jobs[i], p)
  }

  predicate JobReferences(job: string, p: string -> bool)
  {
    var items := Split(job, ':');
    forall k :: 1 <= k < |items| ==> p(items[k])
  }

  /** Joining pieces that instantiate one by one instantiates the join. */
  lemma {:induction false} InstantiateJoin(parts: seq<string>, outs: seq<string>, sep: char, ids: map<string, string>)
    requires sep != '{' && sep != '}'
    requires |parts| == |outs|
    requires forall i :: 0 <= i < |parts| ==> Instantiate(parts[i], ids) == Ok(outs[i])
    ensures Instantiate(Join(parts, sep), ids) == Ok(Join(outs, sep))
  {
    if |parts| > 1 {
      var tail := Join(parts[1..], sep);
      InstantiateJoin(parts[1..], outs[1..], sep, ids);
      assert ([sep] + tail)[0] == sep && ([sep] + tail)[1..] == tail;
      assert Instantiate([sep] + tail, ids) == Ok([sep] + Join(outs[1..], sep));
      assert parts[0] + [sep] + tail == parts[0] + ([sep] + tail);
      InstantiateAppend(parts[0], [sep] + tail, ids);
      assert outs[0] + ([sep] + Join(outs[1..], sep)) == outs[0] + [sep] + Join(outs[1..], sep);
    }
  }

  /** A braced reference is replaced by the lookup of its name and keeps its suffix. */
  lemma InstantiateBraced(tok: string, ids: map<string, string>)
    requires '{' !in tok && '}' !in tok
    requires ValidField(tok)
    ensures FormatReference(tok).Ok?
    ensures Instantiate(FormatReference(tok).value, ids) == Ok(ResolveReference(tok, ids))
  {
    var r := ParseReference(tok).value;
    ParseReferenceText(tok);
    assert tok == r.name + SuffixText(r.suffix);
    assert '{' !in SuffixText(r.suffix) && '}' !in SuffixText(r.suffix);
    InstantiateField(r.name, SuffixText(r.suffix), ids);
    InstantiatePlain(SuffixText(r.suffix), ids);
  }

  /** Every braced reference instantiates to its resolution. */
  lemma InstantiateEachBraced(names: seq<string>, ids: map<string, string>)
    requires forall k :: 0 <= k < |names| ==> '{' !in names[k] && '}' !in names[k] && ValidField(names[k])
    ensures forall k :: 0 <= k < |names| ==> FormatReference(names[k]).Ok?
    ensures forall k :: 0 <= k < |names| ==>
              Instantiate(FormatReference(names[k]).value, ids) == Ok(ResolveReference(names[k], ids))
  {
    forall k | 0 <= k < |names|
      ensures FormatReference(names[k]).Ok?
      ensures Instantiate(FormatReference(names[k]).value, ids) == Ok(ResolveReference(names[k], ids))
    {
      InstantiateBraced(names[k], ids);
    }
  }

  /** A head token followed by braced references instantiates to the head
      followed by the resolved references. */
  lemma InstantiateReferences(head: string, names: seq<string>, ids: map<string, string>)
    requires '{' !in head && '}' !in head
    requires forall k :: 0 <= k < |names| ==> '{' !in names[k] && '}' !in names[k] && ValidField(names[k])
    ensures MapResult(names, FormatReference).Ok?
    ensures Instantiate(Join([head] + MapResult(names, FormatReference).value, ':'), ids)
         == Ok(Join([head] + ResolveReferences(names, ids), ':'))
  {
    InstantiateEachBraced(names, ids);
    var refs := MapResult(names, FormatReference).value;
    var outs := ResolveReferences(names, ids);
    assert forall k :: 0 <= k < |refs| ==> Instantiate(refs[k], ids) == Ok(outs[k]);
    InstantiateHeaded(head, refs, outs, ids);
  }

  /** `InstantiateJoin` for a brace-free head followed by `:`-pieces. */
  lemma InstantiateHeaded(head: string, parts: seq<string>, outs: seq<string>, ids: map<string, string>)
    requires '{' !in head && '}' !in head
    requires |parts| == |outs|
    requires forall k :: 0 <= k < |parts| ==> Instantiate(parts[k], ids) == Ok(outs[k])
    ensures Instantiate(Join([head] + parts, ':'), ids) == Ok(Join([head] + outs, ':'))
  {
    InstantiatePlain(head, ids);
    var all := [head] + parts;
    var allOuts := [head] + outs;
    assert forall i :: 1 <= i < |all| ==> all[i] == parts[i - 1] && allOuts[i] == outs[i - 1];
    InstantiateJoin(all, allOuts, ':', ids);
  }

  lemma InstantiateJob(job: string, ids: map<string, string>)
    requires '{' !in job && '}' !in job
    requires JobReferences(job, ValidField)
    ensures FormatJob(job).Ok?
    ensures Instantiate(FormatJob(job).value, ids) == Ok(ResolveJob(job, ids))
  {
    var items := Split(job, ':');
    var names := items[1..];
    assert '{' !in items[0] && '}' !in items[0]
        && forall k :: 0 <= k < |names| ==> '{' !in names[k] && '}' !in names[k] && ValidField(names[k]) by {
      SplitAnyOmits(job, {':'}, '{');
      SplitAnyOmits(job, {':'}, '}');
      assert forall k :: 0 <= k < |names| ==> names[k] == items[k + 1];
    }
    InstantiateReferences(items[0], names, ids);
  }

  lemma InstantiateGroup(group: string, ids: map<string, string>)
    requires '{' !in group && '}' !in group
    requires GroupReferences(group, ValidField)
    ensures FormatGroup(group).Ok?
    ensures Instantiate(FormatGroup(group).value, ids) == Ok(ResolveGroup(group, ids))
  {
    var jobs := Split(group, '?');
    SplitAnyOmits(group, {'?'}, '{');
    SplitAnyOmits(group, {'?'}, '}');
    forall i | 0 <= i < |jobs|
      ensures FormatJob(jobs[i]).Ok?
      ensures Instantiate(FormatJob(jobs[i]).value, ids) == Ok(ResolveJob(jobs[i], ids))
    {
      InstantiateJob(jobs[i], ids);
    }
    var outs := seq(|jobs|, i requires 0 <= i < |jobs| => ResolveJob(jobs[i], ids));
    InstantiateJoin(MapResult(jobs, FormatJob).value, outs, '?', ids);
  }

  /** Instantiating the template of an expression without braces whose
      references all have proper field names replaces each reference's name
      by its id, or leaves its field when it has none, and keeps everything
      else: types, suffixes and separators. */
  lemma InstantiatePlaceholder(expr: string, ids: map<string, string>)
    requires '{' !in expr && '}' !in expr
    requires EveryReference(expr, ValidField)
    ensures Placeholder(expr).Ok?
    ensures Instantiate(Placeholder(expr).value, ids) == Ok(Resolve(expr, ids))
  {
    var groups := Split(expr, ',');
    SplitAnyOmits(expr, {','}, '{');
    SplitAnyOmits(expr, {','}, '}');
    forall i | 0 <= i < |groups|
      ensures FormatGroup(groups[i]).Ok?
      ensures Instantiate(FormatGroup(groups[i]).value, ids) == Ok(ResolveGroup(groups[i], ids))
    {
      InstantiateGroup(groups[i], ids);
    }
    var outs := seq(|groups|, i requires 0 <= i < |groups| => ResolveGroup(groups[i], ids));
    InstantiateJoin(MapResult(groups, FormatGroup).value, outs, ',', ids);
  }

  /** `Default.__missing__`: a field whose name has no id comes back as it was. */
  lemma FieldSurvives(name: string, rest: string, ids: map<string, string>)
    requires FieldName(name) && name !in ids
    ensures Instantiate("{" + name + "}" + rest, ids) == Prepend("{" + name + "}", Instantiate(rest, ids))
  {
    InstantiateField(name, rest, ids);
  }

  lemma ResolveJobUnregistered(job: string)
    requires FormatJob(job).Ok?
    ensures ResolveJob(job, map[]) == FormatJob(job).value
  {
    var items := Split(job, ':');
    var refs := MapResult(items[1..], FormatReference).value;
    var outs := ResolveReferences(items[1..], map[]);
    assert outs == refs;
  }

  lemma ResolveGroupUnregistered(group: string)
    requires FormatGroup(group).Ok?
    ensures ResolveGroup(group, map[]) == FormatGroup(group).value
  {
    var jobs := Split(group, '?');
    var outs := seq(|jobs|, i requires 0 <= i < |jobs| => ResolveJob(jobs[i], map[]));
    var formatted := MapResult(jobs, FormatJob).value;
    forall i | 0 <= i < |jobs|
      ensures outs[i] == formatted[i]
    {
      ResolveJobUnregistered(jobs[i]);
    }
    assert outs == formatted;
  }

  /** With an empty registry every field survives: instantiating a template
      gives the template back. */
  lemma UnregisteredSurvives(expr: string)
    requires '{' !in expr && '}' !in expr
    requires EveryReference(expr, ValidField)
    ensures Placeholder(expr).Ok?
    ensures Instantiate(Placeholder(expr).value, map[]) == Ok(Placeholder(expr).value)
  {
    InstantiatePlaceholder(expr, map[]);
    var groups := Split(expr, ',');
    var outs := seq(|groups|, i requires 0 <= i < |groups| => ResolveGroup(groups[i], map[]));
    var formatted := MapResult(groups, FormatGroup).value;
    forall i | 0 <= i < |groups|
      ensures outs[i] == formatted[i]
    {
      ResolveGroupUnregistered(groups[i]);
    }
    assert outs == formatted;
  }
}
