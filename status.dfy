/** Reading the report of `sacct -n -P --format=jobid,state`
    (sworkflow/suite.py:131-132): the report's lines, each stripped and cut
    at `|`, become a table from job id to state. */
module Status {
  import opened Wrappers
  import opened Text

  /** The line boundaries of Python's `str.splitlines()`: `\n`, `\v`, `\f`,
      `\r`, the separators `\x1c`-`\x1e`, NEL and the Unicode line and
      paragraph separators. */
  predicate LineBreak(c: char)
  {
    || ('\n' <= c <= '\r') || ('\U{001C}' <= c <= '\U{001E}')
    || c == '\U{0085}' || c == '\U{2028}' || c == '\U{2029}'
  }

  predicate NoBreak(line: string)
  {
    forall k :: 0 <= k < |line| ==> !LineBreak(line[k])
  }

  /** Where the first line of `s` ends: its first boundary, or the end. */
  function LineEnd(s: string): (n: nat)
    ensures n <= |s|
    ensures NoBreak(s[..n])
    ensures n < |s| ==> LineBreak(s[n])
  {
    if s == [] || LineBreak(s[0]) then 0
    else
      var n := LineEnd(s[1..]);
      assert s[..n + 1] == [s[0]] + s[1..][..n];
      1 + n
  }

  /** `s.splitlines()`: `\r\n` is one boundary, and a boundary at the very
      end does not start another line. */
  function SplitLines(s: string): (r: seq<string>)
    ensures forall i :: 0 <= i < |r| ==> NoBreak(r[i])
    decreases |s|
  {
    if s == [] then []
    else
      var n := LineEnd(s);
      if n == |s| then [s]
      else
        var next := if s[n] == '\r' && n + 1 < |s| && s[n + 1] == '\n' then n + 2 else n + 1;
        [s[..n]] + SplitLines(s[next..])
  }

  /** Lines each ended by `\n`, as a program prints them. */
  function Unlines(lines: seq<string>): string
  {
    if lines == [] then [] else lines[0] + "\n" + Unlines(lines[1..])
  }

  /** `splitlines` gives back the lines a report was printed from. */
  lemma {:induction false} SplitUnlines(lines: seq<string>)
    requires forall i :: 0 <= i < |lines| ==> NoBreak(lines[i])
    ensures SplitLines(Unlines(lines)) == lines
  {
    if lines != [] {
      var rest := lines[1..];
      assert forall i :: 0 <= i < |rest| ==> rest[i] == lines[i + 1];
      SplitUnlines(rest);
      SplitLinesStep(lines[0], Unlines(rest));
    }
  }

  /** A line ended by `\n` is split off the front of what follows it. */
  lemma SplitLinesStep(line: string, rest: string)
    requires NoBreak(line)
    ensures SplitLines(line + "\n" + rest) == [line] + SplitLines(rest)
  {
    var s := line + "\n" + rest;
    LineEndAt(line, rest);
    assert s[|line| + 1..] == rest;
    assert s[..|line|] == line;
  }

  lemma LineEndAt(line: string, rest: string)
    requires NoBreak(line)
    ensures LineEnd(line + "\n" + rest) == |line|
  {
    var s := line + "\n" + rest;
    assert s[|line|] == '\n';
    assert forall k :: 0 <= k < |line| ==> s[k] == line[k];
  }

  /** One line of the report as `dict` takes it: `line.strip().split('|')`,
      which must be a pair. */
  function StatusEntry(line: string): (r: Result<(string, string)>)
    ensures r.Ok? <==> IsPair(line)
    ensures r.Ok? ==> r.value.0 + "|" + r.value.1 == Strip(line)
    ensures r.Err? ==> r.error == StatusLineError(line)
  {
    var fields := Split(Strip(line), '|');
    if |fields| == 2 then
      JoinSplit(Strip(line), '|');
      Ok((fields[0], fields[1]))
    else Err(StatusLineError(line))
  }

  /** `dict(pairs)`: a later pair overwrites an earlier one with the same key. */
  function ToMap(pairs: seq<(string, string)>): map<string, string>
  {
    if pairs == [] then map[]
    else ToMap(pairs[..|pairs| - 1])[pairs[|pairs| - 1].0 := pairs[|pairs| - 1].1]
  }

  /** The keys of `dict(pairs)` are the first components of the pairs. */
  lemma {:induction false} ToMapKeys(pairs: seq<(string, string)>)
    ensures forall k :: k in ToMap(pairs) <==> exists i :: 0 <= i < |pairs| && pairs[i].0 == k
  {
    if pairs != [] {
      var init := pairs[..|pairs| - 1];
      ToMapKeys(init);
      forall k | k in ToMap(pairs)
        ensures exists i :: 0 <= i < |pairs| && pairs[i].0 == k
      {
        if k != pairs[|pairs| - 1].0 {
          assert k in ToMap(init);
          var i :| 0 <= i < |init| && init[i].0 == k;
          assert pairs[i].0 == k;
        }
      }
      forall k, i | 0 <= i < |pairs| && pairs[i].0 == k
        ensures k in ToMap(pairs)
      {
        if i < |init| {
          assert init[i].0 == k;
        }
      }
    }
  }

  /** The value `dict(pairs)` keeps for a key is that of the key's last pair. */
  lemma {:induction false} ToMapLast(pairs: seq<(string, string)>, i: nat)
    requires i < |pairs|
    requires forall j :: i < j < |pairs| ==> pairs[j].0 != pairs[i].0
    ensures pairs[i].0 in ToMap(pairs) && ToMap(pairs)[pairs[i].0] == pairs[i].1
  {
    if i < |pairs| - 1 {
      var init := pairs[..|pairs| - 1];
      assert init[i] == pairs[i];
      ToMapLast(init, i);
    }
  }

  /** `dict([line.strip().split('|') for line in out.splitlines()])`; the
      first line that is not a pair raises. */
  function StatusTable(out: string): (r: Result<map<string, string>>)
  {
    match MapResult(SplitLines(out), StatusEntry)
    case Err(e) => Err(e)
    case Ok(pairs) => Ok(ToMap(pairs))
  }

  /** A line `dict` accepts: one `|` once stripped. */
  predicate IsPair(line: string)
  {
    |Split(Strip(line), '|')| == 2
  }

  /** The table fails exactly on a report with a line that is not one
      `jobid|state` pair, and the error names the first such line. */
  lemma StatusTableError(out: string)
    ensures StatusTable(out).Err? <==> exists i :: 0 <= i < |SplitLines(out)| && !IsPair(SplitLines(out)[i])
    ensures StatusTable(out).Err? ==>
              exists i :: 0 <= i < |SplitLines(out)| && StatusTable(out).error == StatusLineError(SplitLines(out)[i])
                && !IsPair(SplitLines(out)[i])
                && forall j :: 0 <= j < i ==> IsPair(SplitLines(out)[j])
  {
    EntriesError(SplitLines(out));
  }

  lemma EntriesError(lines: seq<string>)
    ensures MapResult(lines, StatusEntry).Err? <==> exists i :: 0 <= i < |lines| && !IsPair(lines[i])
    ensures MapResult(lines, StatusEntry).Err? ==>
              exists i :: 0 <= i < |lines| && MapResult(lines, StatusEntry).error == StatusLineError(lines[i])
                && !IsPair(lines[i])
                && forall j :: 0 <= j < i ==> IsPair(lines[j])
  {
    var m := MapResult(lines, StatusEntry);
    if m.Err? {
      var i :| 0 <= i < |lines| && StatusEntry(lines[i]) == Err(m.error)
                && forall j :: 0 <= j < i ==> StatusEntry(lines[j]).Ok?;
      assert !IsPair(lines[i]);
    } else {
      forall i | 0 <= i < |lines|
        ensures IsPair(lines[i])
      {
        assert StatusEntry(lines[i]).Ok?;
      }
    }
  }

  /** A job id or a state as `sacct` prints it: not empty, no whitespace, no `|`. */
  predicate Word(w: string)
  {
    w != [] && forall k :: 0 <= k < |w| ==> !IsSpace(w[k]) && w[k] != '|'
  }

  /** The report `sacct -P` prints for some `(jobid, state)` pairs. */
  function Report(pairs: seq<(string, string)>): string
  {
    Unlines(seq(|pairs|, i requires 0 <= i < |pairs| => pairs[i].0 + "|" + pairs[i].1))
  }

  /** Reading a report gives `dict` of its pairs. */
  lemma ReadReport(pairs: seq<(string, string)>)
    requires forall i :: 0 <= i < |pairs| ==> Word(pairs[i].0) && Word(pairs[i].1)
    ensures StatusTable(Report(pairs)) == Ok(ToMap(pairs))
  {
    var lines := seq(|pairs|, i requires 0 <= i < |pairs| => pairs[i].0 + "|" + pairs[i].1);
    forall i | 0 <= i < |lines|
      ensures NoBreak(lines[i]) && StatusEntry(lines[i]) == Ok(pairs[i])
    {
      ReadLine(pairs[i].0, pairs[i].1);
    }
    SplitUnlines(lines);
    var m := MapResult(lines, StatusEntry);
    assert m.value == pairs;
  }

  lemma ReadLine(id: string, state: string)
    requires Word(id) && Word(state)
    ensures NoBreak(id + "|" + state)
    ensures StatusEntry(id + "|" + state) == Ok((id, state))
  {
    var line := id + "|" + state;
    assert forall k :: 0 <= k < |line| ==> line[k] == '|' || !IsSpace(line[k]);
    StripWord(line);
    assert Join([id, state], '|') == line;
    SplitJoin([id, state], '|');
  }

  /** Stripping a line without whitespace at its ends changes nothing. */
  lemma StripWord(s: string)
    requires s != [] && !IsSpace(s[0]) && !IsSpace(s[|s| - 1])
    ensures Strip(s) == s
  {
    assert LeadingSpace(s) == 0;
    assert TrailingSpace(s) == 0;
    assert s[0..|s|] == s;
  }

  /** `status.get(job_id)`. */
  function StateOf(table: map<string, string>, id: string): Option<string>
  {
    if id in table then Some(table[id]) else None
  }

  /** What `update_status` records for a job id from a report: the state of
      the last line that lists the id, or None when no line does. */
  lemma ReportedState(pairs: seq<(string, string)>, id: string)
    requires forall i :: 0 <= i < |pairs| ==> Word(pairs[i].0) && Word(pairs[i].1)
    ensures StatusTable(Report(pairs)).Ok?
    ensures (forall i :: 0 <= i < |pairs| ==> pairs[i].0 != id) ==> StateOf(StatusTable(Report(pairs)).value, id) == None
    ensures forall i :: 0 <= i < |pairs| && pairs[i].0 == id && (forall j :: i < j < |pairs| ==> pairs[j].0 != id) ==>
              StateOf(StatusTable(Report(pairs)).value, id) == Some(pairs[i].1)
  {
    ReadReport(pairs);
    ToMapKeys(pairs);
    forall i | 0 <= i < |pairs| && pairs[i].0 == id && (forall j :: i < j < |pairs| ==> pairs[j].0 != id)
      ensures StateOf(ToMap(pairs), id) == Some(pairs[i].1)
    {
      ToMapLast(pairs, i);
    }
  }
}
