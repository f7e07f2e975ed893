/**
 * The JUnit "hack" processor. Every solution under `junit.solutions` has,
 * per test class, a `passes` count. The sample solution's counts form a
 * baseline; every class of every other solution is flagged `correct` when
 * it passes fewer tests than the sample does (the test suite caught the
 * broken solution).
 *
 * `Data.keys(path)` is an input: `keys` maps a path to the child names
 * listed under it (an absent path lists nothing). The results are the
 * flat entry map of `Results.Data`. A `passes` value whose text is not an
 * integer raises a NumberFormatException that ends the processor; it is
 * `Failure` here, carrying the offending text.
 */
module JUnitHacks {
  import opened Wrappers
  import opened JavaText
  import opened Results

  const SolutionsRoot: string := "junit.solutions"
  const SampleSolution: string := "solution"

  function Listing(keys: map<string, seq<string>>, path: string): seq<string>
  {
    if path in keys then keys[path] else []
  }

  /** The key prefix of one test class of one solution. */
  function TestKey(solution: string, clazz: string): string
  {
    SolutionsRoot + "." + solution + "." + Escape(clazz)
  }

  function CorrectKey(solution: string, clazz: string): string
  {
    TestKey(solution, clazz) + ".correct"
  }

  /** `data.get(key + ".passes")` through `Integer.parseInt`: None when absent. */
  function PassesOf(entries: map<string, Value>, key: string): (r: Result<Option<int>, string>)
    ensures r.Success? && r.value.Some? ==> key + ".passes" in entries && InInt32(r.value.value)
    ensures r.Success? && r.value.None? <==> key + ".passes" !in entries
  {
    var k := key + ".passes";
    if k !in entries then Success(None)
    else
      match ParseInt(Text(entries[k]))
      case None => Failure(Text(entries[k]))
      case Some(n) => Success(Some(n))
  }

  /** The baseline loop from the given map on: each sample class with a count maps to it. */
  function BaselineFrom(entries: map<string, Value>, classes: seq<string>, acc: map<string, int>): Result<map<string, int>, string>
    decreases |classes|
  {
    if classes == [] then Success(acc)
    else
      match PassesOf(entries, TestKey(SampleSolution, classes[0]))
      case Failure(e) => Failure(e)
      case Success(None) => BaselineFrom(entries, classes[1..], acc)
      case Success(Some(n)) => BaselineFrom(entries, classes[1..], acc[classes[0] := n])
  }

  /** Whether a class is flagged: its count is known, it has a baseline, and it passes fewer tests. */
  predicate Correct(passes: Option<int>, baseline: map<string, int>, clazz: string)
  {
    passes.Some? && clazz in baseline && passes.value < baseline[clazz]
  }

  /** One class of one solution: `correct` is written false, then true if the class is flagged. */
  function FlagClass(entries: map<string, Value>, baseline: map<string, int>, solution: string, clazz: string): Result<map<string, Value>, string>
  {
    var e1 := entries[CorrectKey(solution, clazz) := BoolValue(false)];
    match PassesOf(e1, TestKey(solution, clazz))
    case Failure(e) => Failure(e)
    case Success(p) =>
      if Correct(p, baseline, clazz) then Success(e1[CorrectKey(solution, clazz) := BoolValue(true)]) else Success(e1)
  }

  /** The inner loop over the classes of one solution. */
  function FlagClasses(entries: map<string, Value>, baseline: map<string, int>, solution: string, classes: seq<string>): Result<map<string, Value>, string>
    decreases |classes|
  {
    if classes == [] then Success(entries)
    else
      match FlagClass(entries, baseline, solution, classes[0])
      case Failure(e) => Failure(e)
      case Success(e1) => FlagClasses(e1, baseline, solution, classes[1..])
  }

  /** The outer loop over the solutions, skipping the sample. */
  function FlagSolutions(entries: map<string, Value>, baseline: map<string, int>, keys: map<string, seq<string>>, solutions: seq<string>): Result<map<string, Value>, string>
    decreases |solutions|
  {
    if solutions == [] then Success(entries)
    else if solutions[0] == SampleSolution then FlagSolutions(entries, baseline, keys, solutions[1..])
    else
      match FlagClasses(entries, baseline, solutions[0], Listing(keys, SolutionsRoot + "." + solutions[0]))
      case Failure(e) => Failure(e)
      case Success(e1) => FlagSolutions(e1, baseline, keys, solutions[1..])
  }

  /** `hack(submission)` on the results. */
  function Hack(entries: map<string, Value>, keys: map<string, seq<string>>): Result<map<string, Value>, string>
  {
    match BaselineFrom(entries, Listing(keys, SolutionsRoot + "." + SampleSolution), map[])
    case Failure(e) => Failure(e)
    case Success(b) => FlagSolutions(entries, b, keys, Listing(keys, SolutionsRoot))
  }

  // ---------------------------------------------------------------------
  // The processor, step by step on the results store
  // ---------------------------------------------------------------------

  /** The baseline loop; the results are only read. */
  method ComputeBaseline(data: Data, classes: seq<string>) returns (r: Result<map<string, int>, string>)
    ensures r == BaselineFrom(data.entries, classes, map[])
  {
    var baseline: map<string, int> := map[];
    var i := 0;
    while i < |classes|
      invariant 0 <= i <= |classes|
      invariant BaselineFrom(data.entries, classes[i..], baseline) == BaselineFrom(data.entries, classes, map[])
    {
      var clazz := classes[i];
      assert classes[i..][1..] == classes[i + 1..];
      var passes := PassesOf(data.entries, TestKey(SampleSolution, clazz));
      if passes.Failure? {
        return Failure(passes.error);
      }
      if passes.value.Some? {
        baseline := baseline[clazz := passes.value.value];
      }
      i := i + 1;
    }
    return Success(baseline);
  }

  /** The inner loop: the classes of one solution, in listing order. */
  method FlagSolution(data: Data, baseline: map<string, int>, solution: string, classes: seq<string>) returns (error: Option<string>)
    modifies data
    ensures error.None? <==> FlagClasses(old(data.entries), baseline, solution, classes).Success?
    ensures error.Some? ==> error.value == FlagClasses(old(data.entries), baseline, solution, classes).error
    ensures error.None? ==> data.entries == FlagClasses(old(data.entries), baseline, solution, classes).value
  {
    var i := 0;
    while i < |classes|
      invariant 0 <= i <= |classes|
      invariant FlagClasses(data.entries, baseline, solution, classes[i..]) == FlagClasses(old(data.entries), baseline, solution, classes)
    {
      var clazz := classes[i];
      assert classes[i..][1..] == classes[i + 1..];
      data.Set(CorrectKey(solution, clazz), BoolValue(false));
      var passes := PassesOf(data.entries, TestKey(solution, clazz));
      if passes.Failure? {
        return Some(passes.error);
      }
      if passes.value.Some? && clazz in baseline && passes.value.value < baseline[clazz] {
        data.Set(CorrectKey(solution, clazz), BoolValue(true));
      }
      i := i + 1;
    }
    return None;
  }

  /** `hack(submission)`: the results become those `Hack` gives, or the parse failure ends it. */
  method HackResults(data: Data, keys: map<string, seq<string>>) returns (error: Option<string>)
    modifies data
    ensures error.None? <==> Hack(old(data.entries), keys).Success?
    ensures error.Some? ==> error.value == Hack(old(data.entries), keys).error
    ensures error.None? ==> data.entries == Hack(old(data.entries), keys).value
  {
    var baseline := ComputeBaseline(data, Listing(keys, SolutionsRoot + "." + SampleSolution));
    if baseline.Failure? {
      return Some(baseline.error);
    }
    var solutions := Listing(keys, SolutionsRoot);
    var i := 0;
    while i < |solutions|
      invariant 0 <= i <= |solutions|
      invariant FlagSolutions(data.entries, baseline.value, keys, solutions[i..]) == Hack(old(data.entries), keys)
    {
      var solution := solutions[i];
      assert solutions[i..][1..] == solutions[i + 1..];
      if solution != SampleSolution {
        var err := FlagSolution(data, baseline.value, solution, Listing(keys, SolutionsRoot + "." + solution));
        if err.Some? {
          return err;
        }
      }
      i := i + 1;
    }
    return None;
  }

  // ---------------------------------------------------------------------
  // Properties
  // ---------------------------------------------------------------------

  /** A class is in the baseline exactly when the sample solution has a count for it, and maps to that count. */
  lemma {:induction false} BaselineAt(entries: map<string, Value>, classes: seq<string>, acc: map<string, int>, clazz: string)
    requires BaselineFrom(entries, classes, acc).Success?
    decreases |classes|
    ensures var b := BaselineFrom(entries, classes, acc).value;
      var counted := clazz in classes && TestKey(SampleSolution, clazz) + ".passes" in entries;
      (clazz in b <==> clazz in acc || counted) &&
      (counted ==> PassesOf(entries, TestKey(SampleSolution, clazz)) == Success(Some(b[clazz]))) &&
      (!counted && clazz in acc ==> b[clazz] == acc[clazz])
  {
    if classes != [] {
      var p := PassesOf(entries, TestKey(SampleSolution, classes[0]));
      var acc' := if p.value.Some? then acc[classes[0] := p.value.value] else acc;
      BaselineAt(entries, classes[1..], acc', clazz);
      assert classes == [classes[0]] + classes[1..];
    }
  }

  lemma CancelAffixes(p: string, x: string, y: string, q: string)
    requires p + x + q == p + y + q
    ensures x == y
  {
    assert |x| == |y|;
    assert x == (p + x + q)[|p|..|p| + |x|];
    assert y == (p + y + q)[|p|..|p| + |y|];
  }

  /** A `.passes` key is never a `.correct` key. */
  lemma PassesNotCorrect(a: string, b: string)
    ensures a + ".passes" != b + ".correct"
  {
    var x := a + ".passes";
    var y := b + ".correct";
    assert x[|x| - 1] == 's' && y[|y| - 1] == 't';
  }

  /** Writing a `correct` flag does not change any count read afterwards. */
  lemma PassesAfterWrite(entries: map<string, Value>, w: string, v: Value, key: string)
    ensures PassesOf(entries[w + ".correct" := v], key) == PassesOf(entries, key)
  {
    PassesNotCorrect(key, w);
  }

  /** The classes' loop writes only their `correct` keys. */
  lemma {:induction false} FlagClassesOther(entries: map<string, Value>, baseline: map<string, int>, solution: string, classes: seq<string>, k: string)
    requires FlagClasses(entries, baseline, solution, classes).Success?
    requires forall c :: c in classes ==> k != CorrectKey(solution, c)
    decreases |classes|
    ensures var r := FlagClasses(entries, baseline, solution, classes).value;
      (k in r <==> k in entries) && (k in entries ==> r[k] == entries[k])
  {
    if classes != [] {
      assert classes[0] in classes;
      var e1 := FlagClass(entries, baseline, solution, classes[0]).value;
      assert forall c :: c in classes[1..] ==> c in classes;
      FlagClassesOther(e1, baseline, solution, classes[1..], k);
    }
  }

  /**
   * After a solution's classes are flagged, each class named once in the
   * listing has `correct` true exactly when it passes fewer tests than
   * the baseline, and false otherwise (including when its count or its
   * baseline is missing).
   */
  lemma {:induction false} FlagClassesOutcome(entries: map<string, Value>, baseline: map<string, int>, solution: string, classes: seq<string>, j: nat)
    requires FlagClasses(entries, baseline, solution, classes).Success?
    requires j < |classes| && forall m :: 0 <= m < |classes| && m != j ==> classes[m] != classes[j]
    decreases |classes|
    ensures PassesOf(entries, TestKey(solution, classes[j])).Success?
    ensures CorrectKey(solution, classes[j]) in FlagClasses(entries, baseline, solution, classes).value
    ensures FlagClasses(entries, baseline, solution, classes).value[CorrectKey(solution, classes[j])] ==
      BoolValue(Correct(PassesOf(entries, TestKey(solution, classes[j])).value, baseline, classes[j]))
  {
    var c := classes[0];
    var e1 := FlagClass(entries, baseline, solution, c).value;
    PassesAfterWrite(entries, TestKey(solution, c), BoolValue(false), TestKey(solution, classes[j]));
    if j == 0 {
      forall d | d in classes[1..]
        ensures CorrectKey(solution, c) != CorrectKey(solution, d)
      {
        var m :| 0 <= m < |classes[1..]| && classes[1..][m] == d;
        assert classes[m + 1] != c;
        if CorrectKey(solution, c) == CorrectKey(solution, d) {
          CancelAffixes(SolutionsRoot + "." + solution + ".", Escape(c), Escape(d), ".correct");
          EscapeInjective(c, d);
        }
      }
      FlagClassesOther(e1, baseline, solution, classes[1..], CorrectKey(solution, c));
    } else {
      PassesAfterWrite(entries[CorrectKey(solution, c) := BoolValue(false)], TestKey(solution, c), BoolValue(true), TestKey(solution, classes[j]));
      forall m | 0 <= m < |classes[1..]| && m != j - 1
        ensures classes[1..][m] != classes[1..][j - 1]
      {
        assert classes[m + 1] != classes[j];
      }
      FlagClassesOutcome(e1, baseline, solution, classes[1..], j - 1);
    }
  }

  /** The sample solution is skipped wherever the listing names it. */
  lemma {:induction false} SampleSkipped(entries: map<string, Value>, baseline: map<string, int>, keys: map<string, seq<string>>, xs: seq<string>, ys: seq<string>)
    decreases |xs|
    ensures FlagSolutions(entries, baseline, keys, xs + [SampleSolution] + ys) == FlagSolutions(entries, baseline, keys, xs + ys)
  {
    if xs == [] {
      var whole := xs + [SampleSolution] + ys;
      assert whole[0] == SampleSolution && whole[1..] == ys && xs + ys == ys;
    } else {
      var whole := xs + [SampleSolution] + ys;
      assert whole[0] == xs[0] && whole[1..] == xs[1..] + [SampleSolution] + ys;
      assert (xs + ys)[0] == xs[0] && (xs + ys)[1..] == xs[1..] + ys;
      if xs[0] == SampleSolution {
        SampleSkipped(entries, baseline, keys, xs[1..], ys);
      } else {
        var first := FlagClasses(entries, baseline, xs[0], Listing(keys, SolutionsRoot + "." + xs[0]));
        if first.Success? {
          SampleSkipped(first.value, baseline, keys, xs[1..], ys);
        }
      }
    }
  }

  /** A count stored as an integer within 32 bits is read back as itself. */
  lemma StoredCount(entries: map<string, Value>, key: string, n: int)
    requires key + ".passes" in entries && entries[key + ".passes"] == IntValue(n) && InInt32(n)
    ensures PassesOf(entries, key) == Success(Some(n))
  {
    IntRoundTrip(n);
  }
}
