/** The string operations the core leans on: Python's `str.split(sep)`,
    `re.split('[...]', s)`, `sep.join(parts)`, `str.replace(a, b)`, `str.strip()`,
    and the "delete every brace" view used to read a placeholder template back. */
module Text {

  /** `re.split('[<seps>]', s)`: cut at every character of `seps`, keeping empty
      pieces. There is always at least one piece. */
  function SplitAny(s: string, seps: set<char>): (r: seq<string>)
    ensures |r| >= 1
  {
    if s == [] then [[]]
    else
      var rest := SplitAny(s[1..], seps);
      if s[0] in seps then [[]] + rest
      else [[s[0]] + rest[0]] + rest[1..]
  }

  /** `s.split(sep)` for a one-character separator. */
  function Split(s: string, sep: char): (r: seq<string>)
    ensures |r| >= 1
    ensures forall i :: 0 <= i < |r| ==> sep !in r[i]
  {
    SplitAnyPieces(s, {sep});
    SplitAny(s, {sep})
  }

  /** No piece of a split holds a separator. */
  lemma {:induction false} SplitAnyPieces(s: string, seps: set<char>)
    ensures forall i, c :: 0 <= i < |SplitAny(s, seps)| && c in seps ==> c !in SplitAny(s, seps)[i]
  {
    if s != [] {
      SplitAnyPieces(s[1..], seps);
    }
  }

  /** `sep.join(parts)`. */
  function Join(parts: seq<string>, sep: char): string
  {
    if |parts| == 0 then []
    else if |parts| == 1 then parts[0]
    else parts[0] + [sep] + Join(parts[1..], sep)
  }

  /** `s.replace(a, b)` for single characters. */
  function Replace(s: string, a: char, b: char): (r: string)
    ensures |r| == |s|
    ensures forall k :: 0 <= k < |s| ==> r[k] == if s[k] == a then b else s[k]
  {
    if s == [] then [] else [if s[0] == a then b else s[0]] + Replace(s[1..], a, b)
  }

  /** The pieces of every part split again on `seps`, concatenated. */
  function SplitEach(parts: seq<string>, seps: set<char>): seq<string>
  {
    if parts == [] then [] else SplitAny(parts[0], seps) + SplitEach(parts[1..], seps)
  }

  /** A character missing from `s` is missing from every piece of its split. */
  lemma {:induction false} SplitAnyOmits(s: string, seps: set<char>, c: char)
    requires c !in s
    ensures forall i :: 0 <= i < |SplitAny(s, seps)| ==> c !in SplitAny(s, seps)[i]
  {
    if s != [] {
      assert c !in s[1..];
      SplitAnyOmits(s[1..], seps, c);
    }
  }

  /** Joining the pieces of a split gives back the string. */
  lemma {:induction false} JoinSplit(s: string, sep: char)
    ensures Join(Split(s, sep), sep) == s
  {
    if s != [] {
      JoinSplit(s[1..], sep);
      var rest := Split(s[1..], sep);
      if s[0] != sep && |rest| > 1 {
        assert Join(rest, sep) == rest[0] + [sep] + Join(rest[1..], sep);
      }
    }
  }

  /** Splitting a join gives back the parts, when no part holds the separator. */
  lemma {:induction false} SplitJoin(parts: seq<string>, sep: char)
    requires |parts| >= 1
    requires forall i :: 0 <= i < |parts| ==> sep !in parts[i]
    ensures Split(Join(parts, sep), sep) == parts
  {
    SplitPrefix(parts[0], [], sep);
    assert parts[0] + [] == parts[0];
    if |parts| > 1 {
      var tail := Join(parts[1..], sep);
      SplitJoin(parts[1..], sep);
      assert parts[0] + [sep] + tail == parts[0] + ([sep] + tail);
      SplitPrefix(parts[0], [sep] + tail, sep);
      assert ([sep] + tail)[1..] == tail;
    }
  }

  /** A prefix free of the separator only lengthens the first piece. */
  lemma {:induction false} SplitPrefix(p: string, s: string, sep: char)
    requires sep !in p
    ensures Split(p + s, sep) == [p + Split(s, sep)[0]] + Split(s, sep)[1..]
  {
    if p == [] {
      assert p + s == s;
      assert Split(s, sep) == [Split(s, sep)[0]] + Split(s, sep)[1..];
      assert p + Split(s, sep)[0] == Split(s, sep)[0];
    } else {
      SplitPrefix(p[1..], s, sep);
      assert (p + s)[0] == p[0];
      assert (p + s)[1..] == p[1..] + s;
      assert [p[0]] + (p[1..] + Split(s, sep)[0]) == p + Split(s, sep)[0];
    }
  }

  /** `s.split(sep)` has one piece more than `s` has separators. */
  lemma {:induction false} SplitCount(s: string, sep: char)
    ensures |Split(s, sep)| == multiset(s)[sep] + 1
  {
    if s != [] {
      SplitCount(s[1..], sep);
      assert s == [s[0]] + s[1..];
      assert multiset(s) == multiset([s[0]]) + multiset(s[1..]);
    }
  }

  /** Splitting on `a` and then every piece on `b` is splitting on both. */
  lemma {:induction false} SplitTwice(s: string, a: set<char>, b: set<char>)
    ensures SplitEach(SplitAny(s, a), b) == SplitAny(s, a + b)
  {
    if s == [] {
      assert SplitEach([[]], b) == SplitAny([], b) + SplitEach([], b);
    } else {
      var rest := SplitAny(s[1..], a);
      SplitTwice(s[1..], a, b);
      if s[0] in a {
        assert SplitAny(s, a) == [[]] + rest;
        assert ([[]] + rest)[1..] == rest;
        assert SplitEach([[]] + rest, b) == SplitAny([], b) + SplitEach(rest, b);
      } else {
        SplitTwiceStep(s[0], rest, b);
        assert SplitAny(s, a) == [[s[0]] + rest[0]] + rest[1..];
      }
    }
  }

  /** The step of SplitTwice for a first character that `a` does not cut at. */
  lemma {:induction false} SplitTwiceStep(x: char, rest: seq<string>, b: set<char>)
    requires |rest| >= 1
    ensures |SplitEach(rest, b)| >= 1
    ensures SplitEach([[x] + rest[0]] + rest[1..], b) ==
            if x in b then [[]] + SplitEach(rest, b)
            else [[x] + SplitEach(rest, b)[0]] + SplitEach(rest, b)[1..]
  {
    var first := [x] + rest[0];
    var inner := SplitAny(rest[0], b);
    var tail := SplitEach(rest[1..], b);
    assert SplitEach(rest, b) == inner + tail;
    assert ([first] + rest[1..])[1..] == rest[1..];
    assert SplitEach([first] + rest[1..], b) == SplitAny(first, b) + tail;
    assert first[0] == x && first[1..] == rest[0];
    if x in b {
      assert SplitAny(first, b) == [[]] + inner;
    } else {
      assert SplitAny(first, b) == [[x] + inner[0]] + inner[1..];
      assert (inner + tail)[0] == inner[0];
      assert (inner + tail)[1..] == inner[1..] + tail;
    }
  }

  /** Replacing `a` by a character `b` that is already a separator makes `a` a
      separator too. */
  lemma {:induction false} ReplaceThenSplit(s: string, a: char, b: char, seps: set<char>)
    requires b in seps
    ensures SplitAny(Replace(s, a, b), seps) == SplitAny(s, seps + {a})
  {
    if s != [] {
      ReplaceThenSplit(s[1..], a, b, seps);
      var r := Replace(s, a, b);
      assert r[0] == (if s[0] == a then b else s[0]);
      assert r[1..] == Replace(s[1..], a, b);
    }
  }

  /** Python's `str.isspace()`: the characters `str.strip()` removes. */
  predicate IsSpace(c: char)
  {
    || c == ' ' || ('\t' <= c <= '\r') || ('\U{001C}' <= c <= '\U{001F}')
    || c == '\U{0085}' || c == '\U{00A0}' || c == '\U{1680}' || ('\U{2000}' <= c <= '\U{200A}')
    || c == '\U{2028}' || c == '\U{2029}' || c == '\U{202F}' || c == '\U{205F}' || c == '\U{3000}'
  }

  /** How many whitespace characters `s` starts with. */
  function LeadingSpace(s: string): (n: nat)
    ensures n <= |s|
    ensures forall k :: 0 <= k < n ==> IsSpace(s[k])
    ensures n < |s| ==> !IsSpace(s[n])
  {
    if s == [] || !IsSpace(s[0]) then 0
    else
      var n := LeadingSpace(s[1..]);
      assert forall k :: 1 <= k < n + 1 ==> s[k] == s[1..][k - 1];
      1 + n
  }

  /** How many whitespace characters `s` ends with. */
  function TrailingSpace(s: string): (n: nat)
    ensures n <= |s|
    ensures forall k :: |s| - n <= k < |s| ==> IsSpace(s[k])
    ensures n < |s| ==> !IsSpace(s[|s| - n - 1])
  {
    if s == [] || !IsSpace(s[|s| - 1]) then 0
    else 1 + TrailingSpace(s[..|s| - 1])
  }

  /** `s.strip()`: the infix left after removing whitespace at both ends. */
  function Strip(s: string): (r: string)
    ensures exists i, j :: 0 <= i <= j <= |s| && r == s[i..j]
              && (forall k :: 0 <= k < i ==> IsSpace(s[k]))
              && (forall k :: j <= k < |s| ==> IsSpace(s[k]))
    ensures r == [] || (!IsSpace(r[0]) && !IsSpace(r[|r| - 1]))
  {
    var i := LeadingSpace(s);
    var t := s[i..];
    var j := i + |t| - TrailingSpace(t);
    assert forall k :: j <= k < |s| ==> s[k] == t[k - i];
    s[i..j]
  }

  /** Stripping twice changes nothing more. */
  lemma StripIdempotent(s: string)
    ensures Strip(Strip(s)) == Strip(s)
  {
    var r := Strip(s);
    assert LeadingSpace(r) == 0;
    assert TrailingSpace(r) == 0;
    assert r[0..|r|] == r;
  }

  /** The text with every `{` and `}` deleted. */
  function StripBraces(s: string): (r: string)
    ensures '{' !in r && '}' !in r
    ensures '{' !in s && '}' !in s ==> r == s
  {
    if s == [] then []
    else if s[0] == '{' || s[0] == '}' then StripBraces(s[1..])
    else [s[0]] + StripBraces(s[1..])
  }

  lemma {:induction false} StripBracesAppend(a: string, b: string)
    ensures StripBraces(a + b) == StripBraces(a) + StripBraces(b)
  {
    if a != [] {
      assert (a + b)[0] == a[0];
      assert (a + b)[1..] == a[1..] + b;
      StripBracesAppend(a[1..], b);
    } else {
      assert a + b == b;
    }
  }

  /** Deleting braces keeps every other character where it was. */
  lemma {:induction false} StripBracesKeeps(s: string, c: char)
    requires c != '{' && c != '}'
    ensures c in StripBraces(s) <==> c in s
  {
    if s != [] {
      StripBracesKeeps(s[1..], c);
      assert s == [s[0]] + s[1..];
    }
  }
}
