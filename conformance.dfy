/**
 * The conformance processors: the file-structure diff (missing and extra
 * files) and the per-class comparison loop that records, for every expected
 * class, whether the submitted class differs and the comparator's rendering.
 * Two versions share this logic: the `Conformance` pipe stage and the
 * `ConformanceComponent`. Compiling and loading classes is abstract: a
 * compilation is its compiler output and the class map it loads.
 */
module Conformance {
  import opened Wrappers
  import opened JavaText
  import opened Comparators
  import opened Results

  // ---- the file-structure diff ----

  lemma {:induction false} RemoveAllSnoc(xs: seq<string>, x: string, ys: seq<string>)
    ensures RemoveAll(xs + [x], ys) == RemoveAll(xs, ys) + (if x in ys then [] else [x])
  {
    if xs == [] {
      assert [] + [x] == [x];
    } else {
      assert (xs + [x])[1..] == xs[1..] + [x];
      RemoveAllSnoc(xs[1..], x, ys);
    }
  }

  /** The `!list.contains(item)` filter loop: the items of xs absent from ys, in order, repeats kept. */
  method Absent(xs: seq<string>, ys: seq<string>) returns (r: seq<string>)
    ensures r == RemoveAll(xs, ys)
  {
    r := [];
    for i := 0 to |xs|
      invariant r == RemoveAll(xs[..i], ys)
    {
      RemoveAllSnoc(xs[..i], xs[i], ys);
      assert xs[..i + 1] == xs[..i] + [xs[i]];
      if xs[i] !in ys {
        r := r + [xs[i]];
      }
    }
    assert xs[..|xs|] == xs;
  }

  /** The results after a structure diff: missing, then extra. */
  function StructureRecorded(entries: map<string, Value>, expectedFiles: seq<string>, actual: seq<string>): map<string, Value>
  {
    entries["structure.missing" := TextList(RemoveAll(expectedFiles, actual))]
           ["structure.extra" := TextList(RemoveAll(actual, expectedFiles))]
  }

  /** `files`: records the expected files the submission lacks and the files it adds. */
  method Files(results: Data, expectedFiles: seq<string>, actual: seq<string>)
    modifies results
    ensures results.entries == StructureRecorded(old(results.entries), expectedFiles, actual)
  {
    var missing := Absent(expectedFiles, actual);
    var extra := Absent(actual, expectedFiles);
    results.Set("structure.missing", TextList(missing));
    results.Set("structure.extra", TextList(extra));
  }

  /** Both lists are empty exactly when the two file lists hold the same files. */
  lemma {:induction false} StructureMatches(expectedFiles: seq<string>, actual: seq<string>)
    ensures RemoveAll(expectedFiles, actual) == [] && RemoveAll(actual, expectedFiles) == [] <==>
      forall f :: f in expectedFiles <==> f in actual
  {
    var missing := RemoveAll(expectedFiles, actual);
    var extra := RemoveAll(actual, expectedFiles);
    if missing != [] {
      assert missing[0] in missing;
    }
    if extra != [] {
      assert extra[0] in extra;
    }
  }

  // ---- the per-class comparison ----

  /** The key prefix of a class: `conformance.` + the escaped name + `.`. */
  function Key(className: string): string
  {
    "conformance." + Escape(className) + "."
  }

  /** What is recorded for a class: `differs` and `output`. */
  function Outcome(expected: Option<ClassInfo>, actual: Option<ClassInfo>): (r: (bool, string))
    ensures expected.None? || actual.None? ==> r == (true, "Unable to load class")
    ensures expected.Some? && actual.Some? ==>
      (r.0 <==> ClassComparison(expected.value, actual.value).HasDifference())
  {
    if expected.None? || actual.None? then (true, "Unable to load class")
    else
      var comparator := ClassComparison(expected.value, actual.value);
      (comparator.HasDifference(), comparator.ToString())
  }

  function Lookup(classes: map<string, ClassInfo>, name: string): (r: Option<ClassInfo>)
    ensures r.Some? <==> name in classes
  {
    if name in classes then Some(classes[name]) else None
  }

  /** A name the loop compares: generated names containing `$` are skipped. */
  predicate Checked(className: string)
  {
    '$' !in className
  }

  /** The results after comparing the classes of names[..i], in that order. */
  function Recorded(entries: map<string, Value>, names: seq<string>, expected: map<string, ClassInfo>,
                    actual: map<string, ClassInfo>, i: nat): map<string, Value>
    requires i <= |names|
  {
    if i == 0 then entries
    else
      var before := Recorded(entries, names, expected, actual, i - 1);
      var name := names[i - 1];
      if !Checked(name) then before
      else
        Written(before, name, Outcome(Lookup(expected, name), Lookup(actual, name)))
  }

  /** The results after recording one class's outcome. */
  function Written(before: map<string, Value>, name: string, outcome: (bool, string)): map<string, Value>
  {
    before[Key(name) + "differs" := BoolValue(outcome.0)][Key(name) + "output" := TextValue(outcome.1)]
  }

  lemma WrittenKeepsOthers(before: map<string, Value>, name: string, outcome: (bool, string), k: string)
    requires k != Key(name) + "differs" && k != Key(name) + "output"
    ensures k in Written(before, name, outcome) <==> k in before
    ensures k in before ==> Written(before, name, outcome)[k] == before[k]
  {
  }

  /**
   * The loop over the expected class names (in the order the map yields
   * them): skip `$` names, record an unloadable class as differing, and
   * otherwise build a class comparator and record its verdict and rendering.
   */
  method RecordClasses(results: Data, names: seq<string>, expected: map<string, ClassInfo>, actual: map<string, ClassInfo>)
    modifies results
    ensures results.entries == Recorded(old(results.entries), names, expected, actual, |names|)
  {
    for i := 0 to |names|
      invariant results.entries == Recorded(old(results.entries), names, expected, actual, i)
    {
      var className := names[i];
      if '$' in className {
        continue;
      }
      var jsonKey := "conformance." + Escape(className) + ".";
      var expectedClass := Lookup(expected, className);
      var actualClass := Lookup(actual, className);
      if expectedClass.None? || actualClass.None? {
        results.Set(jsonKey + "differs", BoolValue(true));
        results.Set(jsonKey + "output", TextValue("Unable to load class"));
        continue;
      }
      var comparator := CompareClass(expectedClass.value, actualClass.value);
      results.Set(jsonKey + "differs", BoolValue(comparator.HasDifference()));
      results.Set(jsonKey + "output", TextValue(comparator.ToString()));
    }
  }

  /** The message recorded when the submitted classes cannot be loaded. */
  const ClassLoadError := "Unable to find a class - consult a tutor"

  /**
   * `compare`: nothing happens unless compilation succeeded; a submission
   * whose classes cannot be loaded gets `conformance.error`; otherwise every
   * expected class is compared. `names` lists the expected classes in the
   * map's iteration order.
   */
  method Compare(results: Data, names: seq<string>, expected: map<string, ClassInfo>,
                 submissionClasses: Result<map<string, ClassInfo>, string>)
    requires forall n :: n in names <==> n in expected
    modifies results
    ensures !old(results.Is("compilation.compiles")) ==> results.entries == old(results.entries)
    ensures old(results.Is("compilation.compiles")) && submissionClasses.Failure? ==>
      results.entries == old(results.entries)["conformance.error" := TextValue(ClassLoadError)]
    ensures old(results.Is("compilation.compiles")) && submissionClasses.Success? ==>
      results.entries == Recorded(old(results.entries), names, expected, submissionClasses.value, |names|)
  {
    if !results.Is("compilation.compiles") {
      return;
    }
    if submissionClasses.Failure? {
      results.Set("conformance.error", TextValue(ClassLoadError));
      return;
    }
    RecordClasses(results, names, expected, submissionClasses.value);
  }

  // ---- properties of the recorded results ----

  /** The result keys of two different classes, or of the two fields of one class, never collide. */
  lemma KeysDistinct(n: string, m: string, s: string, t: string)
    requires s == "differs" || s == "output"
    requires t == "differs" || t == "output"
    requires n != m || s != t
    ensures Key(n) + s != Key(m) + t
  {
    var a := Key(n) + s;
    var b := Key(m) + t;
    assert a[|a| - 1] == s[|s| - 1] && b[|b| - 1] == t[|t| - 1];
    if a == b && s == t {
      assert Key(n) == a[..|a| - |s|] == Key(m);
      assert Escape(n) == Key(n)[12..|Key(n)| - 1];
      assert Escape(m) == Key(m)[12..|Key(m)| - 1];
      EscapeInjective(n, m);
    }
  }

  /** The keys written while comparing the classes of names[..i]. */
  function WrittenKeys(names: seq<string>, i: nat): set<string>
    requires i <= |names|
  {
    if i == 0 then {}
    else
      var own := if Checked(names[i - 1]) then {Key(names[i - 1]) + "differs", Key(names[i - 1]) + "output"} else {};
      WrittenKeys(names, i - 1) + own
  }

  /** The written keys are the two keys of each checked name. */
  lemma {:induction false} WrittenKeysOf(names: seq<string>, i: nat, k: string)
    requires i <= |names|
    ensures k in WrittenKeys(names, i) <==>
      exists n :: n in names[..i] && Checked(n) && (k == Key(n) + "differs" || k == Key(n) + "output")
  {
    if i > 0 {
      WrittenKeysOf(names, i - 1, k);
      assert names[..i] == names[..i - 1] + [names[i - 1]];
    }
  }

  /** Comparing the classes leaves every other key as it was. */
  lemma {:induction false} RecordedUntouched(entries: map<string, Value>, names: seq<string>,
                                             expected: map<string, ClassInfo>, actual: map<string, ClassInfo>, i: nat, k: string)
    requires i <= |names| && k !in WrittenKeys(names, i)
    ensures k in Recorded(entries, names, expected, actual, i) <==> k in entries
    ensures k in entries ==> Recorded(entries, names, expected, actual, i)[k] == entries[k]
  {
    if i > 0 {
      RecordedUntouched(entries, names, expected, actual, i - 1, k);
    }
  }

  /** The two keys the last comparison writes hold its outcome. */
  lemma {:induction false} RecordedLast(entries: map<string, Value>, names: seq<string>,
                     expected: map<string, ClassInfo>, actual: map<string, ClassInfo>, i: nat)
    requires 0 < i <= |names| && Checked(names[i - 1])
    ensures var name := names[i - 1];
      var outcome := Outcome(Lookup(expected, name), Lookup(actual, name));
      var r := Recorded(entries, names, expected, actual, i);
      Key(name) + "differs" in r && r[Key(name) + "differs"] == BoolValue(outcome.0) &&
      Key(name) + "output" in r && r[Key(name) + "output"] == TextValue(outcome.1)
  {
    var name := names[i - 1];
    KeysDistinct(name, name, "differs", "output");
  }

  /** For distinct names, each checked class ends up with its own outcome under its two keys. */
  lemma {:induction false} RecordedOutcome(entries: map<string, Value>, names: seq<string>,
                                           expected: map<string, ClassInfo>, actual: map<string, ClassInfo>, i: nat, j: nat)
    requires j < i <= |names| && Checked(names[j])
    requires forall a, b :: 0 <= a < b < |names| ==> names[a] != names[b]
    ensures var outcome := Outcome(Lookup(expected, names[j]), Lookup(actual, names[j]));
      var r := Recorded(entries, names, expected, actual, i);
      Key(names[j]) + "differs" in r && r[Key(names[j]) + "differs"] == BoolValue(outcome.0) &&
      Key(names[j]) + "output" in r && r[Key(names[j]) + "output"] == TextValue(outcome.1)
  {
    if j == i - 1 {
      RecordedLast(entries, names, expected, actual, i);
    } else {
      RecordedOutcome(entries, names, expected, actual, i - 1, j);
      var name := names[j];
      var last := names[i - 1];
      if Checked(last) {
        var before := Recorded(entries, names, expected, actual, i - 1);
        var outcome := Outcome(Lookup(expected, last), Lookup(actual, last));
        KeysDistinct(name, last, "differs", "differs");
        KeysDistinct(name, last, "differs", "output");
        KeysDistinct(name, last, "output", "differs");
        KeysDistinct(name, last, "output", "output");
        WrittenKeepsOthers(before, last, outcome, Key(name) + "differs");
        WrittenKeepsOthers(before, last, outcome, Key(name) + "output");
      }
    }
  }

  /** Two orders of the same distinct names agree on key k. */
  lemma {:induction false} RecordedSameAt(entries: map<string, Value>, names: seq<string>, other: seq<string>,
                       expected: map<string, ClassInfo>, actual: map<string, ClassInfo>, k: string)
    requires forall a, b :: 0 <= a < b < |names| ==> names[a] != names[b]
    requires forall a, b :: 0 <= a < b < |other| ==> other[a] != other[b]
    requires forall n :: n in names <==> n in other
    ensures var r1 := Recorded(entries, names, expected, actual, |names|);
      var r2 := Recorded(entries, other, expected, actual, |other|);
      (k in r1 <==> k in r2) && (k in r1 ==> r1[k] == r2[k])
  {
    assert names[..|names|] == names && other[..|other|] == other;
    WrittenKeysOf(names, |names|, k);
    WrittenKeysOf(other, |other|, k);
    if k in WrittenKeys(names, |names|) {
      var n :| n in names && Checked(n) && (k == Key(n) + "differs" || k == Key(n) + "output");
      var j :| 0 <= j < |names| && names[j] == n;
      var j' :| 0 <= j' < |other| && other[j'] == n;
      RecordedOutcome(entries, names, expected, actual, |names|, j);
      RecordedOutcome(entries, other, expected, actual, |other|, j');
    } else {
      assert k !in WrittenKeys(other, |other|);
      RecordedUntouched(entries, names, expected, actual, |names|, k);
      RecordedUntouched(entries, other, expected, actual, |other|, k);
    }
  }

  /** The recorded results do not depend on the order in which the map yields its class names. */
  lemma {:induction false} RecordedOrderFree(entries: map<string, Value>, names: seq<string>, other: seq<string>,
                          expected: map<string, ClassInfo>, actual: map<string, ClassInfo>)
    requires forall a, b :: 0 <= a < b < |names| ==> names[a] != names[b]
    requires forall a, b :: 0 <= a < b < |other| ==> other[a] != other[b]
    requires forall n :: n in names <==> n in other
    ensures Recorded(entries, names, expected, actual, |names|) == Recorded(entries, other, expected, actual, |other|)
  {
    var r1 := Recorded(entries, names, expected, actual, |names|);
    var r2 := Recorded(entries, other, expected, actual, |other|);
    forall k
      ensures (k in r1 <==> k in r2) && (k in r1 ==> r1[k] == r2[k])
    {
      RecordedSameAt(entries, names, other, expected, actual, k);
    }
    SameMaps(r1, r2);
  }

  lemma SameMaps(m1: map<string, Value>, m2: map<string, Value>)
    requires forall k :: (k in m1 <==> k in m2) && (k in m1 ==> m1[k] == m2[k])
    ensures m1 == m2
  {
  }

  // ---- the component version ----

  /** A compilation of a folder: the compiler's output and the class map loaded from its output directory. */
  datatype Compilation = Compilation(compilerOutput: string, classMap: Result<map<string, ClassInfo>, string>)

  /** `load(path)`: any compiler output is thrown as an Exception; the error is its `toString()`. */
  function Load(c: Compilation): (r: Result<map<string, ClassInfo>, string>)
    ensures c.compilerOutput != [] ==> r == Failure("java.lang.Exception: " + c.compilerOutput)
    ensures c.compilerOutput == [] ==> r == c.classMap
  {
    if c.compilerOutput != [] then Failure("java.lang.Exception: " + c.compilerOutput) else c.classMap
  }

  class Submission {
    const id: string
    var failed: bool
    const data: Data

    constructor(id: string, data: Data)
      ensures this.id == id && this.data == data && !failed
    {
      this.id := id;
      this.data := data;
      failed := false;
    }
  }

  class ConformanceComponent {
    var noInteraction: bool
    var templateFolder: Option<string>
    var submissionFolder: Option<string>
    var expectedClasses: map<string, ClassInfo>
    var expectedFiles: seq<string>

    constructor()
      ensures !noInteraction && templateFolder.None? && submissionFolder.None?
      ensures expectedClasses == map[] && expectedFiles == []
    {
      noInteraction := false;
      templateFolder := None;
      submissionFolder := None;
      expectedClasses := map[];
      expectedFiles := [];
    }

    method SetNoInteraction(noInteraction: bool) returns (r: ConformanceComponent)
      modifies this
      ensures r == this && this.noInteraction == noInteraction
      ensures templateFolder == old(templateFolder) && submissionFolder == old(submissionFolder)
      ensures expectedClasses == old(expectedClasses) && expectedFiles == old(expectedFiles)
    {
      this.noInteraction := noInteraction;
      r := this;
    }

    method SetSubmissionFolder(submissionFolder: string) returns (r: ConformanceComponent)
      modifies this
      ensures r == this && this.submissionFolder == Some(submissionFolder)
      ensures noInteraction == old(noInteraction) && templateFolder == old(templateFolder)
      ensures expectedClasses == old(expectedClasses) && expectedFiles == old(expectedFiles)
    {
      this.submissionFolder := Some(submissionFolder);
      r := this;
    }

    method SetTemplateFolder(templateFolder: string) returns (r: ConformanceComponent)
      modifies this
      ensures r == this && this.templateFolder == Some(templateFolder)
      ensures noInteraction == old(noInteraction) && submissionFolder == old(submissionFolder)
      ensures expectedClasses == old(expectedClasses) && expectedFiles == old(expectedFiles)
    {
      this.templateFolder := Some(templateFolder);
      r := this;
    }

    /**
     * `init()`: loads the template's classes and lists its files. A failing
     * load throws before anything is added.
     */
    method Init(template: Compilation, templateFiles: seq<string>) returns (error: Option<string>)
      modifies this
      ensures error.Some? <==> Load(template).Failure?
      ensures error.Some? ==> (error.value == Load(template).error &&
        expectedClasses == old(expectedClasses) && expectedFiles == old(expectedFiles))
      ensures error.None? ==> (expectedClasses == old(expectedClasses) + Load(template).value &&
        expectedFiles == old(expectedFiles) + templateFiles)
      ensures noInteraction == old(noInteraction) && templateFolder == old(templateFolder)
      ensures submissionFolder == old(submissionFolder)
    {
      var loaded := Load(template);
      if loaded.Failure? {
        return Some(loaded.error);
      }
      expectedClasses := expectedClasses + loaded.value;
      expectedFiles := expectedFiles + templateFiles;
      error := None;
    }

    /**
     * `run(submission)`: a failing load marks the submission failed and
     * records the error; otherwise the structure diff (via `removeAll`) and
     * the per-class comparison are recorded. `names` is the order in which
     * the expected class map yields its keys.
     */
    method Run(submission: Submission, submissionFiles: seq<string>, compiled: Compilation, names: seq<string>)
      returns (r: Submission)
      requires forall n :: n in names <==> n in expectedClasses
      modifies submission, submission.data
      ensures r == submission
      ensures Load(compiled).Failure? ==> (submission.failed &&
        submission.data.entries == old(submission.data.entries)["structure.error" := TextValue(Load(compiled).error)])
      ensures Load(compiled).Success? ==> (submission.failed == old(submission.failed) &&
        submission.data.entries ==
          Recorded(StructureRecorded(old(submission.data.entries), expectedFiles, submissionFiles),
            names, expectedClasses, Load(compiled).value, |names|))
    {
      var loaded := Load(compiled);
      if loaded.Failure? {
        submission.failed := true;
        submission.data.Set("structure.error", TextValue(loaded.error));
        return submission;
      }
      var missing := RemoveAll(expectedFiles, submissionFiles);
      var extra := RemoveAll(submissionFiles, expectedFiles);
      submission.data.Set("structure.missing", TextList(missing));
      submission.data.Set("structure.extra", TextList(extra));
      RecordClasses(submission.data, names, expectedClasses, loaded.value);
      return submission;
    }
  }
}
