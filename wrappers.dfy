/** Failure-compatible wrappers shared by the whole model, and the errors the
    Python code raises in its core paths. */
module Wrappers {

  datatype Option<+T> = None | Some(value: T)

  /** The exceptions of the core, as values. */
  datatype Error =
    | TooManyValues              // ValueError: `a, b = tok.split(sep)` with more than one separator
    | CycleError                 // graphlib.CycleError raised by static_order()
    | KeyError(key: string)      // dict lookup of a missing key
    | SubmissionFailed(task: string)   // the submitting process failed for this task
    | StatusLineError(line: string)    // dict() over a status line that is not `jobid|state`
    | StatusQueryFailed          // the `sacct` query exited with an error (CalledProcessError)
    | NoTasksMapping             // AttributeError: 'NoneType' object has no attribute 'get'
    | NoTemplate(task: string)   // AttributeError: 'NoneType' object has no attribute 'format_map'
    | FormatError                // ValueError / IndexError from str.format_map on a malformed field

  datatype Result<+T> = Ok(value: T) | Err(error: Error) {
    predicate IsFailure() { Err? }

    function PropagateFailure<U>(): Result<U>
      requires Err?
    {
      Err(error)
    }

    function Extract(): T
      requires Ok?
    {
      value
    }
  }

  /** Applies `f` to every element in order and stops at the first failure,
      the way a Python loop that appends to a list stops at the first exception. */
  function MapResult<A, B>(xs: seq<A>, f: A -> Result<B>): (r: Result<seq<B>>)
    ensures r.Ok? <==> forall i :: 0 <= i < |xs| ==> f(xs[i]).Ok?
    ensures r.Ok? ==> |r.value| == |xs| && forall i :: 0 <= i < |xs| ==> r.value[i] == f(xs[i]).value
    ensures r.Err? ==> exists i :: 0 <= i < |xs| && f(xs[i]) == Err(r.error)
                                  && forall j :: 0 <= j < i ==> f(xs[j]).Ok?
  {
    if xs == [] then Ok([])
    else
      match f(xs[0])
      case Err(e) => Err(e)
      case Ok(y) =>
        var rest := xs[1..];
        assert forall i :: 1 <= i < |xs| ==> xs[i] == rest[i - 1];
        match MapResult(rest, f)
        case Err(e) => Err(e)
        case Ok(ys) =>
          var r := [y] + ys;
          assert forall i :: 1 <= i < |xs| ==> r[i] == ys[i - 1];
          Ok(r)
  }

  /** Mapping a concatenation is mapping each half; the first failure wins. */
  lemma {:induction false} MapResultAppend<A, B>(xs: seq<A>, ys: seq<A>, f: A -> Result<B>)
    ensures MapResult(xs + ys, f) ==
            match MapResult(xs, f)
            case Err(e) => Err(e)
            case Ok(a) =>
              match MapResult(ys, f)
              case Err(e) => Err(e)
              case Ok(b) => Ok(a + b)
  {
    if xs != [] {
      assert (xs + ys)[0] == xs[0];
      assert (xs + ys)[1..] == xs[1..] + ys;
      MapResultAppend(xs[1..], ys, f);
      match f(xs[0])
      case Err(e) =>
      case Ok(y) =>
        match MapResult(xs[1..], f)
        case Err(e) =>
        case Ok(a) =>
          match MapResult(ys, f)
          case Err(e) =>
          case Ok(b) => assert [y] + (a + b) == ([y] + a) + b;
    } else {
      assert xs + ys == ys;
      match MapResult(ys, f)
      case Err(e) =>
      case Ok(b) => assert [] + b == b;
    }
  }

  /** The step a loop takes when it appends one more element. */
  lemma MapResultSnoc<A, B>(xs: seq<A>, x: A, f: A -> Result<B>, acc: seq<B>)
    requires MapResult(xs, f) == Ok(acc)
    ensures MapResult(xs + [x], f) ==
            match f(x)
            case Err(e) => Err(e)
            case Ok(y) => Ok(acc + [y])
  {
    MapResultAppend(xs, [x], f);
    assert [x][1..] == [];
    assert MapResult([x][1..], f) == Ok([]);
    match f(x)
    case Err(e) =>
    case Ok(y) => assert [y] + [] == [y];
  }

  /** A failure right after a prefix that maps cleanly is the failure of the
      whole sequence. */
  lemma FirstFailure<A, B>(xs: seq<A>, k: nat, f: A -> Result<B>, e: Error)
    requires k < |xs|
    requires MapResult(xs[..k], f).Ok? && f(xs[k]) == Err(e)
    ensures MapResult(xs, f) == Err(e)
  {
    forall j | 0 <= j < k
      ensures f(xs[j]).Ok?
    {
      assert xs[..k][j] == xs[j];
    }
    var r := MapResult(xs, f);
    assert !f(xs[k]).Ok?;
    assert r.Err?;
    var i :| 0 <= i < |xs| && f(xs[i]) == Err(r.error) && forall j :: 0 <= j < i ==> f(xs[j]).Ok?;
    assert i <= k;
    assert i == k;
  }

  /** The step a loop over `xs` takes at index `k` when `f` succeeds there. */
  lemma ExtendPrefix<A, B>(xs: seq<A>, k: nat, f: A -> Result<B>, acc: seq<B>)
    requires k < |xs|
    requires MapResult(xs[..k], f) == Ok(acc) && f(xs[k]).Ok?
    ensures MapResult(xs[..k + 1], f) == Ok(acc + [f(xs[k]).value])
  {
    assert xs[..k + 1] == xs[..k] + [xs[k]];
    MapResultSnoc(xs[..k], xs[k], f, acc);
  }

  /** A loop over the keys of `dep` that has visited all but `todo` and
      stored `f` of each visited entry in `m`, every one of them a success. */
  ghost predicate Built<V>(dep: map<string, string>, f: string -> Result<V>, todo: set<string>, m: map<string, V>)
  {
    && todo <= dep.Keys
    && (forall n :: n in dep && n !in todo ==> f(dep[n]).Ok?)
    && m.Keys == dep.Keys - todo
    && (forall n :: n in m ==> m[n] == f(dep[n]).value)
  }

  lemma BuiltStep<V>(dep: map<string, string>, f: string -> Result<V>, todo: set<string>, m: map<string, V>, n: string)
    requires Built(dep, f, todo, m) && n in todo && f(dep[n]).Ok?
    ensures Built(dep, f, todo - {n}, m[n := f(dep[n]).value])
  {
  }

  lemma BuiltDone<V>(dep: map<string, string>, f: string -> Result<V>, m: map<string, V>)
    requires Built(dep, f, {}, m)
    ensures m.Keys == dep.Keys
    ensures forall n :: n in dep ==> f(dep[n]).Ok? && m[n] == f(dep[n]).value
  {
  }
}
