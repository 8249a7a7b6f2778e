/** Submission commands as token lists, and the flag insertion that
    `Suite.prepare_jobs` and `sDepend.format_task` share. */
module Commands {

  const Sbatch: string := "sbatch"
  const Parsable: string := "--parsable"

  /** `parts.insert(i, x)`; an index past the end appends, as in Python. */
  function Insert(parts: seq<string>, i: nat, x: string): (r: seq<string>)
    ensures |r| == |parts| + 1
    ensures multiset(r) == multiset(parts) + multiset{x}
    ensures var at := if i <= |parts| then i else |parts|;
            && r[at] == x
            && (forall k :: 0 <= k < at ==> r[k] == parts[k])
            && (forall k :: at <= k < |parts| ==> r[k + 1] == parts[k])
  {
    var at := if i <= |parts| then i else |parts|;
    assert parts == parts[..at] + parts[at..];
    parts[..at] + [x] + parts[at..]
  }

  /** `xs` can be obtained from `ys` by deleting elements. */
  ghost predicate IsSubsequence(xs: seq<string>, ys: seq<string>)
  {
    if xs == [] then true
    else if ys == [] then false
    else (xs[0] == ys[0] && IsSubsequence(xs[1..], ys[1..])) || IsSubsequence(xs, ys[1..])
  }

  /** Subsequences concatenate. */
  lemma {:induction false} SubsequenceAppend(xs: seq<string>, ys: seq<string>, zs: seq<string>, ws: seq<string>)
    requires IsSubsequence(xs, ys) && IsSubsequence(zs, ws)
    ensures IsSubsequence(xs + zs, ys + ws)
    decreases |xs| + |ys|
  {
    if xs == [] {
      assert xs + zs == zs;
      SubsequencePrefixed(zs, ys, ws);
    } else {
      assert (xs + zs)[0] == xs[0] && (xs + zs)[1..] == xs[1..] + zs;
      assert (ys + ws)[0] == ys[0] && (ys + ws)[1..] == ys[1..] + ws;
      if xs[0] == ys[0] && IsSubsequence(xs[1..], ys[1..]) {
        SubsequenceAppend(xs[1..], ys[1..], zs, ws);
      } else {
        SubsequenceAppend(xs, ys[1..], zs, ws);
      }
    }
  }

  /** Tokens put in front keep every subsequence. */
  lemma {:induction false} SubsequencePrefixed(zs: seq<string>, ys: seq<string>, ws: seq<string>)
    requires IsSubsequence(zs, ws)
    ensures IsSubsequence(zs, ys + ws)
  {
    if ys == [] {
      assert ys + ws == ws;
    } else if zs != [] {
      assert (ys + ws)[1..] == ys[1..] + ws;
      SubsequencePrefixed(zs, ys[1..], ws);
    }
  }

  lemma {:induction false} SubsequenceReflexive(xs: seq<string>)
    ensures IsSubsequence(xs, xs)
  {
    if xs != [] {
      SubsequenceReflexive(xs[1..]);
    }
  }

  lemma InsertFront(ys: seq<string>, i: nat, x: string)
    requires i == 0 || ys == []
    ensures Insert(ys, i, x) == [x] + ys
  {
    assert ys[..0] == [] && ys[0..] == ys;
  }

  lemma InsertCons(ys: seq<string>, i: nat, x: string)
    requires i > 0 && ys != []
    ensures Insert(ys, i, x) == [ys[0]] + Insert(ys[1..], i - 1, x)
  {
    var at := if i <= |ys| then i else |ys|;
    var rest := ys[1..];
    assert ys[..at] == [ys[0]] + rest[..at - 1];
    assert ys[at..] == rest[at - 1..];
  }

  /** Inserting a token keeps every token that was there, in the same order. */
  lemma {:induction false} InsertKeepsOrder(xs: seq<string>, ys: seq<string>, i: nat, x: string)
    requires IsSubsequence(xs, ys)
    ensures IsSubsequence(xs, Insert(ys, i, x))
  {
    var r := Insert(ys, i, x);
    if i == 0 || ys == [] {
      InsertFront(ys, i, x);
      assert r[1..] == ys;
    } else if xs != [] {
      var rest := Insert(ys[1..], i - 1, x);
      InsertCons(ys, i, x);
      assert r[0] == ys[0] && r[1..] == rest;
      if xs[0] == ys[0] && IsSubsequence(xs[1..], ys[1..]) {
        InsertKeepsOrder(xs[1..], ys[1..], i - 1, x);
      } else {
        InsertKeepsOrder(xs, ys[1..], i - 1, x);
      }
    }
  }

  /** The first part of `prepare_jobs` / `format_task`: put `sbatch` at index 0
      and `--parsable` at index 1, each only when the token is missing. */
  function AddSubmitFlags(parts: seq<string>): (r: seq<string>)
    ensures Sbatch in r && Parsable in r
    ensures Sbatch !in parts ==> r[0] == Sbatch
    ensures Parsable !in parts ==> r[1] == Parsable
    ensures |r| == |parts| + (if Sbatch in parts then 0 else 1) + (if Parsable in parts then 0 else 1)
    ensures Sbatch in parts && Parsable in parts ==> r == parts
  {
    var withSbatch := if Sbatch in parts then parts else Insert(parts, 0, Sbatch);
    assert Sbatch in withSbatch && |withSbatch| >= 1;
    assert withSbatch[0] == Sbatch || Sbatch in parts;
    assert Parsable in withSbatch <==> Parsable in parts;
    if Parsable in withSbatch then withSbatch
    else
      var r := Insert(withSbatch, 1, Parsable);
      assert Sbatch in multiset(r);
      r
  }

  /** The original tokens survive in their original order. */
  lemma SubmitFlagsKeepCommand(parts: seq<string>)
    ensures IsSubsequence(parts, AddSubmitFlags(parts))
  {
    SubsequenceReflexive(parts);
    var withSbatch := if Sbatch in parts then parts else Insert(parts, 0, Sbatch);
    if Sbatch !in parts {
      InsertKeepsOrder(parts, parts, 0, Sbatch);
    }
    if Parsable !in withSbatch {
      InsertKeepsOrder(parts, withSbatch, 1, Parsable);
    }
  }

  /** Normalising a normalised command changes nothing. */
  lemma SubmitFlagsIdempotent(parts: seq<string>)
    ensures AddSubmitFlags(AddSubmitFlags(parts)) == AddSubmitFlags(parts)
  {
  }
}
