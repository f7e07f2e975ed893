/**
 * The JUnit output parser: it reads the text a JUnit run prints, line by
 * line, and records the version, the one-character-per-test summary, the
 * run time, the pass and fail counts, and for every failed test its name
 * and the lines of its failure message.
 *
 * The line-by-line scan is specified by `ParseFrom`, a function over a
 * snapshot of the parser's fields and the scan's two locals (whether a
 * failure message is being read and for which test). `JUnitParser.Parse`
 * is the imperative loop, proved equal to it; the lemmas state what each
 * kind of line does and the invariants every successful parse keeps.
 *
 * `Integer.parseInt` failures escape the parser as NumberFormatException;
 * the one NullPointerException the parser catches (no line after the
 * summary line) becomes the "JUnit died" parse error.
 */
module JUnitParsing {
  import opened Wrappers
  import opened JavaText
  import opened JUnitPatterns

  datatype Failure =
    | JUnitParseException(message: string)
    | NumberFormatException(input: string)

  const NoResultsLine: string := "Unable to read results line"
  const DiedMessage: string := "JUnit died when executing tests - call to System.exit?"

  /** The parser's fields; None stands for an array field still null. */
  datatype Snapshot = Snapshot(
    version: Option<(int, int)>,
    testResults: Option<seq<bool>>,
    time: Option<(int, int)>,
    fails: int,
    passes: int,
    failureMethods: map<int, string>,
    errorMessages: map<int, string>)

  /** The scan's locals: `parsingTest` and `testNum`. */
  datatype Scan = Scan(parsingTest: bool, testNum: int)

  const Initial: Snapshot := Snapshot(None, None, None, 0, 0, map[], map[])
  const Start: Scan := Scan(false, 0)

  /** One entry per summary character, true exactly for a `.` (a passing test). */
  function Summary(resultLine: string): (r: seq<bool>)
    ensures |r| == |resultLine|
    ensures forall k :: 0 <= k < |r| ==> (r[k] <==> resultLine[k] == '.')
  {
    seq(|resultLine|, k requires 0 <= k < |resultLine| => resultLine[k] == '.')
  }

  /** Both groups through `Integer.parseInt`, the first failure winning. */
  function ParsePair(g: (string, string)): (r: Result<(int, int), Failure>)
    ensures r.Success? <==> ParseInt(g.0).Some? && ParseInt(g.1).Some?
    ensures r.Success? ==> r.value == (ParseInt(g.0).value, ParseInt(g.1).value)
    ensures ParseInt(g.0).None? ==> r == Failure(NumberFormatException(g.0))
  {
    match ParseInt(g.0)
    case None => Failure(NumberFormatException(g.0))
    case Some(a) =>
      match ParseInt(g.1)
      case None => Failure(NumberFormatException(g.1))
      case Some(b) => Success((a, b))
  }

  /** The time a `Time:` line records: None when the line does not match (the field keeps its value). */
  function TimeOf(timeLine: string): Result<Option<(int, int)>, Failure>
  {
    match MatchTime(timeLine)
    case None => Success(None)
    case Some(g) =>
      match ParsePair(g)
      case Failure(e) => Failure(e)
      case Success(t) => Success(Some(t))
  }

  /**
   * `parseHeader`: the version groups, the summary line and the line after
   * it (None when the input ended, the null that raises the caught
   * NullPointerException).
   */
  function Header(st: Snapshot, groups: (string, string), resultLine: string, timeLine: Option<string>): Result<Snapshot, Failure>
  {
    match ParsePair(groups)
    case Failure(e) => Failure(e)
    case Success(v) =>
      if timeLine.None? then Failure(JUnitParseException(DiedMessage))
      else
        match TimeOf(timeLine.value)
        case Failure(e) => Failure(e)
        case Success(t) =>
          Success(st.(version := Some(v), testResults := Some(Summary(resultLine)),
                      time := if t.Some? then t else st.time))
  }

  /** The SUCCESS_PATTERN branch. */
  function OnSuccess(st: Snapshot, line: string): Result<Snapshot, Failure>
  {
    match MatchSuccess(line)
    case None => Success(st)
    case Some(d) =>
      match ParseInt(d)
      case None => Failure(NumberFormatException(d))
      case Some(n) => Success(st.(passes := n, fails := 0))
  }

  /** The FAIL_PATTERN branch: passes is the run count less the failures. */
  function OnFail(st: Snapshot, line: string): Result<Snapshot, Failure>
  {
    match MatchFail(line)
    case None => Success(st)
    case Some(g) =>
      match ParsePair(g)
      case Failure(e) => Failure(e)
      case Success(counts) => Success(st.(passes := counts.0 - counts.1, fails := counts.1))
  }

  /** `errorMessages.get(testNum)`, which Java's string concatenation renders "null" when absent. */
  function MessageOf(messages: map<int, string>, testNum: int): string
  {
    if testNum in messages then messages[testNum] else "null"
  }

  /** The header branch, the blank-line branch and the message-continuation branch. */
  function OnRest(st: Snapshot, scan: Scan, line: string): Result<(Snapshot, Scan), Failure>
  {
    match MatchHeader(line)
    case Some(h) =>
      (match ParseInt(h.0)
       case None => Failure(NumberFormatException(h.0))
       case Some(n) =>
         Success((st.(failureMethods := st.failureMethods[n := h.1], errorMessages := st.errorMessages[n := ""]),
                  Scan(true, n))))
    case None =>
      var parsing := if line == [] then false else scan.parsingTest;
      if parsing then
        var message := MessageOf(st.errorMessages, scan.testNum) + LineSeparator + line;
        Success((st.(errorMessages := st.errorMessages[scan.testNum := message]), Scan(parsing, scan.testNum)))
      else Success((st, Scan(parsing, scan.testNum)))
  }

  /** One line that is not a version line. */
  function Step(st: Snapshot, scan: Scan, line: string): Result<(Snapshot, Scan), Failure>
  {
    match OnSuccess(st, line)
    case Failure(e) => Failure(e)
    case Success(st1) =>
      match OnFail(st1, line)
      case Failure(e) => Failure(e)
      case Success(st2) => OnRest(st2, scan, line)
  }

  /** The scan from line i on; a version line consumes the two lines after it. */
  function ParseFrom(lines: seq<string>, i: nat, st: Snapshot, scan: Scan): Result<Snapshot, Failure>
    requires i <= |lines|
    decreases |lines| - i
  {
    if i == |lines| then Success(st)
    else
      match MatchVersion(lines[i])
      case Some(groups) =>
        if i + 1 == |lines| then Failure(JUnitParseException(NoResultsLine))
        else
          var timeLine := if i + 2 < |lines| then Some(lines[i + 2]) else None;
          (match Header(st, groups, lines[i + 1], timeLine)
           case Failure(e) => Failure(e)
           case Success(st1) => ParseFrom(lines, i + 3, st1, scan))
      case None =>
        match Step(st, scan, lines[i])
        case Failure(e) => Failure(e)
        case Success(next) => ParseFrom(lines, i + 1, next.0, next.1)
  }

  /** `parse(input)`, as a value. */
  function ParseText(input: string): Result<Snapshot, Failure>
  {
    ParseFrom(ReadLines(input), 0, Initial, Start)
  }

  /** The version or time pair as `getVersion`/`getTime` render it; None is the NullPointerException of a null array. */
  function PairText(p: Option<(int, int)>): (r: Option<string>)
    ensures r.Some? <==> p.Some?
  {
    match p
    case None => None
    case Some(v) => Some(IntToString(v.0) + "." + IntToString(v.1))
  }

  /** What `buildOutput()` writes for one failure: its name, its message and a line separator. */
  function FailureBlock(failureMethods: map<int, string>, errorMessages: map<int, string>, k: int): string
    requires k in failureMethods
  {
    failureMethods[k] + MessageOf(errorMessages, k) + LineSeparator
  }

  /** `order` lists each key of the map exactly once, as iterating over a HashMap does. */
  predicate IterationOrder(order: seq<int>, keys: set<int>)
  {
    (forall i, j :: 0 <= i < j < |order| ==> order[i] != order[j])
    && (forall k :: k in order ==> k in keys)
    && (forall k :: k in keys ==> k in order)
  }

  /** `buildOutput()`: the failures' blocks, in the map's iteration order. */
  function BuildOutput(failureMethods: map<int, string>, errorMessages: map<int, string>, order: seq<int>): (r: string)
    requires forall k :: k in order ==> k in failureMethods
    ensures r == [] <==> order == []
    ensures order != [] ==> EndsWith(r, LineSeparator)
  {
    if order == [] then []
    else FailureBlock(failureMethods, errorMessages, order[0]) + BuildOutput(failureMethods, errorMessages, order[1..])
  }

  /** The output holds the block of every failure listed in the order. */
  lemma {:induction false} OutputHasBlock(failureMethods: map<int, string>, errorMessages: map<int, string>, order: seq<int>, j: nat)
    requires forall k :: k in order ==> k in failureMethods
    requires j < |order|
    ensures Contains(BuildOutput(failureMethods, errorMessages, order), FailureBlock(failureMethods, errorMessages, order[j]))
  {
    var s := BuildOutput(failureMethods, errorMessages, order);
    var first := FailureBlock(failureMethods, errorMessages, order[0]);
    var rest := BuildOutput(failureMethods, errorMessages, order[1..]);
    var block := FailureBlock(failureMethods, errorMessages, order[j]);
    assert s == first + rest;
    if j == 0 {
      assert OccursAt(s, block, 0);
    } else {
      assert order[1..][j - 1] == order[j];
      OutputHasBlock(failureMethods, errorMessages, order[1..], j - 1);
      var i: nat :| i <= |rest| && OccursAt(rest, block, i);
      assert s[|first| + i..|first| + i + |block|] == rest[i..i + |block|];
      assert OccursAt(s, block, |first| + i);
    }
  }

  class JUnitParser {
    var version: Option<(int, int)>
    var testResults: Option<seq<bool>>
    var time: Option<(int, int)>
    var fails: int
    var passes: int
    var cached: Option<string>
    var failureMethods: map<int, string>
    var errorMessages: map<int, string>

    function State(): Snapshot
      reads this
    {
      Snapshot(version, testResults, time, fails, passes, failureMethods, errorMessages)
    }

    constructor()
      ensures State() == Initial && cached == None
    {
      version := None;
      testResults := None;
      time := None;
      fails := 0;
      passes := 0;
      cached := None;
      failureMethods := map[];
      errorMessages := map[];
    }

    /** `getVersion()`. */
    function GetVersion(): (r: Option<string>)
      reads this
      ensures r == PairText(version)
    {
      PairText(version)
    }

    /** `getTime()`. */
    function GetTime(): (r: Option<string>)
      reads this
      ensures r == PairText(time)
    {
      PairText(time)
    }

    /** `getTotal()`: the tests executed, passed plus failed. */
    function GetTotal(): (r: int)
      reads this
      ensures r == passes + fails
    {
      passes + fails
    }

    /**
     * `parseHeader`: on success the fields are those `Header` gives; on a
     * failure the parser is abandoned, so the fields are left unspecified.
     */
    method ParseHeader(groups: (string, string), resultLine: string, timeLine: Option<string>) returns (err: Option<Failure>)
      modifies this
      ensures err.None? <==> Header(old(State()), groups, resultLine, timeLine).Success?
      ensures err.Some? ==> err.value == Header(old(State()), groups, resultLine, timeLine).error
      ensures err.None? ==> State() == Header(old(State()), groups, resultLine, timeLine).value
      ensures cached == old(cached)
    {
      var v := ParsePair(groups);
      if v.Failure? {
        return Some(v.error);
      }
      version := Some(v.value);
      var summary := SummaryOf(resultLine);
      testResults := Some(summary);
      if timeLine.None? {
        return Some(JUnitParseException(DiedMessage));
      }
      var t := TimeOf(timeLine.value);
      if t.Failure? {
        return Some(t.error);
      }
      if t.value.Some? {
        time := t.value;
      }
      return None;
    }

    /** The summary array, filled one character at a time. */
    static method SummaryOf(resultLine: string) returns (r: seq<bool>)
      ensures r == Summary(resultLine)
    {
      var summary := new bool[|resultLine|];
      for i := 0 to |resultLine|
        invariant forall k :: 0 <= k < i ==> (summary[k] <==> resultLine[k] == '.')
      {
        summary[i] := resultLine[i] == '.';
      }
      r := summary[..];
    }

    /** The success and fail branches of one line, applied to the counts in place. */
    method Counts(line: string) returns (err: Option<Failure>)
      modifies this
      ensures var want := OnSuccess(old(State()), line);
        var after := if want.Success? then OnFail(want.value, line) else want;
        (err.None? <==> after.Success?) &&
        (err.Some? ==> err.value == after.error) &&
        (err.None? ==> State() == after.value)
      ensures cached == old(cached)
    {
      var success := MatchSuccess(line);
      if success.Some? {
        var n := ParseInt(success.value);
        if n.None? {
          return Some(NumberFormatException(success.value));
        }
        passes := n.value;
        fails := 0;
      }
      var fail := MatchFail(line);
      if fail.Some? {
        var counts := ParsePair(fail.value);
        if counts.Failure? {
          return Some(counts.error);
        }
        passes := counts.value.0;
        fails := counts.value.1;
        passes := passes - fails;
      }
      return None;
    }

    /** The header, blank-line and continuation branches of one line, applied in place. */
    method Messages(scan: Scan, line: string) returns (r: Result<Scan, Failure>)
      modifies this
      ensures r.Success? <==> OnRest(old(State()), scan, line).Success?
      ensures r.Failure? ==> r.error == OnRest(old(State()), scan, line).error
      ensures r.Success? ==> (State(), r.value) == OnRest(old(State()), scan, line).value
      ensures cached == old(cached)
    {
      var parsingTest := scan.parsingTest;
      var testNum := scan.testNum;
      var header := MatchHeader(line);
      if header.Some? {
        parsingTest := true;
        var n := ParseInt(header.value.0);
        if n.None? {
          return Failure(NumberFormatException(header.value.0));
        }
        testNum := n.value;
        failureMethods := failureMethods[testNum := header.value.1];
        errorMessages := errorMessages[testNum := ""];
        return Success(Scan(parsingTest, testNum));
      }
      if line == [] {
        parsingTest := false;
      }
      if parsingTest {
        errorMessages := errorMessages[testNum := MessageOf(errorMessages, testNum) + LineSeparator + line];
      }
      return Success(Scan(parsingTest, testNum));
    }

    /** One non-version line, applied to the fields in place. */
    method StepLine(scan: Scan, line: string) returns (r: Result<Scan, Failure>)
      modifies this
      ensures r.Success? <==> Step(old(State()), scan, line).Success?
      ensures r.Failure? ==> r.error == Step(old(State()), scan, line).error
      ensures r.Success? ==> (State(), r.value) == Step(old(State()), scan, line).value
      ensures cached == old(cached)
    {
      var err := Counts(line);
      if err.Some? {
        return Failure(err.value);
      }
      r := Messages(scan, line);
    }

    /** `parse(input)`: a fresh parser whose fields are those `ParseText` gives, or the exception it raises. */
    static method Parse(input: string) returns (r: Result<JUnitParser, Failure>)
      ensures r.Success? <==> ParseText(input).Success?
      ensures r.Failure? ==> r.error == ParseText(input).error
      ensures r.Success? ==> fresh(r.value) && r.value.State() == ParseText(input).value && r.value.cached.None?
    {
      var lines := ReadLines(input);
      var test := new JUnitParser();
      var scan := Start;
      var i := 0;
      while i < |lines|
        invariant 0 <= i <= |lines|
        invariant fresh(test) && test.cached.None?
        invariant ParseFrom(lines, i, test.State(), scan) == ParseText(input)
        decreases |lines| - i
      {
        var line := lines[i];
        var groups := MatchVersion(line);
        if groups.Some? {
          if i + 1 == |lines| {
            return Failure(JUnitParseException(NoResultsLine));
          }
          var resultsLine := lines[i + 1];
          var timeLine := if i + 2 < |lines| then Some(lines[i + 2]) else None;
          var err := test.ParseHeader(groups.value, resultsLine, timeLine);
          if err.Some? {
            return Failure(err.value);
          }
          i := i + 3;
        } else {
          var next := test.StepLine(scan, line);
          if next.Failure? {
            return Failure(next.error);
          }
          scan := next.value;
          i := i + 1;
        }
      }
      return Success(test);
    }

    /**
     * `formatOutput()`: built once, then the cached text is returned even
     * if the fields change. `order` is the failure map's iteration order.
     */
    method FormatOutput(order: seq<int>) returns (r: string)
      modifies this
      requires IterationOrder(order, failureMethods.Keys)
      ensures failureMethods == old(failureMethods) && errorMessages == old(errorMessages)
      ensures old(cached).Some? ==> r == old(cached).value
      ensures old(cached).None? ==> r == BuildOutput(failureMethods, errorMessages, order)
      ensures old(cached).None? ==> forall k :: k in failureMethods ==> Contains(r, FailureBlock(failureMethods, errorMessages, k))
      ensures cached == Some(r) && State() == old(State())
    {
      if cached.None? {
        var text := BuildOutput(failureMethods, errorMessages, order);
        forall k | k in failureMethods
          ensures Contains(text, FailureBlock(failureMethods, errorMessages, k))
        {
          var j :| 0 <= j < |order| && order[j] == k;
          OutputHasBlock(failureMethods, errorMessages, order, j);
        }
        cached := Some(text);
      }
      r := cached.value;
    }
  }

  // ---------------------------------------------------------------------
  // What each kind of line does
  // ---------------------------------------------------------------------

  /** Parsing the decimal rendering of a count within 32 bits gives it back. */
  lemma {:induction false} NatParses(n: nat)
    requires n <= IntMax
    ensures ParseInt(NatToString(n)) == Some(n)
  {
    IntRoundTrip(n);
  }

  /** A group of digits never parses to a negative number. */
  lemma DigitsNonNegative(d: string)
    requires AllDigits(d) && ParseInt(d).Some?
    ensures ParseInt(d).value >= 0
  {
    assert IsDigit(d[0]);
    assert SignedBody(d) == d;
  }

  lemma NotSuccess(line: string)
    requires line != [] && line[0] != 'O'
    ensures MatchSuccess(line).None?
  {
    if |line| >= 10 {
      assert line[..4][0] == line[0];
    }
  }

  lemma NotFail(line: string)
    requires line != [] && line[0] != 'T'
    ensures MatchFail(line).None?
  {
    if |line| >= |RunPrefix| {
      assert line[..|RunPrefix|][0] == line[0];
    }
  }

  lemma NotVersion(line: string)
    requires line != [] && line[0] != 'J'
    ensures MatchVersion(line).None?
  {
  }

  lemma NotHeader(line: string)
    requires line != [] && !IsDigit(line[0]) && line[0] != ')'
    ensures MatchHeader(line).None?
  {
    DigitRunAt(line, 0, 0);
    var after := line[0..];
    if |after| >= 2 {
      assert after[..2][0] == line[0];
    }
  }

  /** A blank line ends the failure message being read and changes no field. */
  lemma BlankLineEndsMessage(st: Snapshot, scan: Scan)
    ensures Step(st, scan, "") == Success((st, Scan(false, scan.testNum)))
  {
    DigitRunAt("", 0, 0);
  }

  /** `OK (n tests)` sets the passes to n and the failures to zero. */
  lemma {:induction false} SuccessLineCounts(st: Snapshot, scan: Scan, n: nat, plural: bool)
    requires n <= IntMax
    ensures var r := Step(st, scan, "OK (" + NatToString(n) + (if plural then " tests)" else " test)"));
      r.Success? && r.value.0.passes == n && r.value.0.fails == 0 &&
      r.value.0.failureMethods == st.failureMethods && r.value.0.version == st.version
    ensures !scan.parsingTest ==>
      Step(st, scan, "OK (" + NatToString(n) + (if plural then " tests)" else " test)")) == Success((st.(passes := n, fails := 0), scan))
  {
    var line := "OK (" + NatToString(n) + (if plural then " tests)" else " test)");
    SuccessLineMatches(NatToString(n), plural);
    NatParses(n);
    NotFail(line);
    NotHeader(line);
  }

  /** `Tests run: r,  Failures: f` records f failures and r - f passes, so the total is r. */
  lemma {:induction false} FailLineCounts(st: Snapshot, scan: Scan, run: nat, failed: nat)
    requires run <= IntMax && failed <= IntMax
    ensures var r := Step(st, scan, RunPrefix + NatToString(run) + FailuresInfix + NatToString(failed));
      r.Success? && r.value.0.fails == failed && r.value.0.passes == run - failed &&
      r.value.0.passes + r.value.0.fails == run &&
      r.value.0.failureMethods == st.failureMethods
  {
    var line := RunPrefix + NatToString(run) + FailuresInfix + NatToString(failed);
    FailMatches(NatToString(run), NatToString(failed));
    NatParses(run);
    NatParses(failed);
    NotSuccess(line);
    NotHeader(line);
  }

  /** `k) name(Class)` starts the message of failure k under the method name, and a message reading begins. */
  lemma {:induction false} HeaderLineRecords(st: Snapshot, scan: Scan, k: nat, name: string, cls: string)
    requires k <= IntMax && AllDot(name) && AllDot(cls) && '(' !in cls
    ensures var r := Step(st, scan, NatToString(k) + ") " + name + "(" + cls + ")");
      r.Success? && r.value.1 == Scan(true, k) &&
      r.value.0.failureMethods == st.failureMethods[k := name] &&
      r.value.0.errorMessages == st.errorMessages[k := ""] &&
      r.value.0.passes == st.passes && r.value.0.fails == st.fails
  {
    var line := NatToString(k) + ") " + name + "(" + cls + ")";
    HeaderMatches(NatToString(k), name, cls);
    NatParses(k);
    assert IsDigit(line[0]);
    NotSuccess(line);
    NotFail(line);
  }

  /** While a message is being read, a non-blank line that matches nothing is appended to it on a new line. */
  lemma ContinuationAppends(st: Snapshot, scan: Scan, line: string)
    requires scan.parsingTest && scan.testNum in st.errorMessages && line != []
    requires MatchSuccess(line).None? && MatchFail(line).None? && MatchHeader(line).None?
    ensures var r := Step(st, scan, line);
      r.Success? && r.value.1 == scan &&
      r.value.0.errorMessages == st.errorMessages[scan.testNum := st.errorMessages[scan.testNum] + LineSeparator + line] &&
      r.value.0.failureMethods == st.failureMethods
  {
  }

  // ---------------------------------------------------------------------
  // Invariants of the scan
  // ---------------------------------------------------------------------

  /**
   * Every recorded failure has a message, the failure count is never
   * negative, and the total the getter reports is a count within 32 bits.
   */
  predicate ConsistentFields(st: Snapshot)
  {
    st.failureMethods.Keys == st.errorMessages.Keys &&
    st.fails >= 0 && 0 <= st.passes + st.fails <= IntMax
  }

  /** While a message is being read, its test has an entry, so "null" is never appended to. */
  predicate Consistent(st: Snapshot, scan: Scan)
  {
    ConsistentFields(st) && (scan.parsingTest ==> scan.testNum in st.errorMessages)
  }

  lemma StepConsistent(st: Snapshot, scan: Scan, line: string)
    requires Consistent(st, scan) && Step(st, scan, line).Success?
    ensures Consistent(Step(st, scan, line).value.0, Step(st, scan, line).value.1)
  {
    OnSuccessConsistent(st, line);
    var st1 := OnSuccess(st, line).value;
    OnFailConsistent(st1, line);
    var st2 := OnFail(st1, line).value;
    assert Consistent(st2, scan);
    OnRestConsistent(st2, scan, line);
  }

  lemma OnSuccessConsistent(st: Snapshot, line: string)
    requires ConsistentFields(st) && OnSuccess(st, line).Success?
    ensures var r := OnSuccess(st, line).value;
      ConsistentFields(r) && r.failureMethods == st.failureMethods && r.errorMessages == st.errorMessages
  {
    var s := MatchSuccess(line);
    if s.Some? {
      DigitsNonNegative(s.value);
    }
  }

  lemma OnFailConsistent(st: Snapshot, line: string)
    requires ConsistentFields(st) && OnFail(st, line).Success?
    ensures var r := OnFail(st, line).value;
      ConsistentFields(r) && r.failureMethods == st.failureMethods && r.errorMessages == st.errorMessages
  {
    var f := MatchFail(line);
    if f.Some? {
      DigitsNonNegative(f.value.0);
      DigitsNonNegative(f.value.1);
    }
  }

  lemma OnRestConsistent(st: Snapshot, scan: Scan, line: string)
    requires Consistent(st, scan) && OnRest(st, scan, line).Success?
    ensures Consistent(OnRest(st, scan, line).value.0, OnRest(st, scan, line).value.1)
  {
  }

  lemma HeaderConsistent(st: Snapshot, scan: Scan, groups: (string, string), resultLine: string, timeLine: Option<string>)
    requires Consistent(st, scan) && Header(st, groups, resultLine, timeLine).Success?
    ensures Consistent(Header(st, groups, resultLine, timeLine).value, scan)
  {
  }

  lemma {:induction false} ParseFromConsistent(lines: seq<string>, i: nat, st: Snapshot, scan: Scan)
    requires i <= |lines| && Consistent(st, scan) && ParseFrom(lines, i, st, scan).Success?
    decreases |lines| - i
    ensures ConsistentFields(ParseFrom(lines, i, st, scan).value)
  {
    if i < |lines| {
      match MatchVersion(lines[i])
      case Some(groups) =>
        var timeLine := if i + 2 < |lines| then Some(lines[i + 2]) else None;
        HeaderConsistent(st, scan, groups, lines[i + 1], timeLine);
        ParseFromConsistent(lines, i + 3, Header(st, groups, lines[i + 1], timeLine).value, scan);
      case None =>
        StepConsistent(st, scan, lines[i]);
        var next := Step(st, scan, lines[i]).value;
        ParseFromConsistent(lines, i + 1, next.0, next.1);
    }
  }

  /**
   * After any successful parse every failure method has a message, and
   * `getTotal` is a count between 0 and 2^31 - 1.
   */
  lemma ParseConsistent(input: string)
    requires ParseText(input).Success?
    ensures ConsistentFields(ParseText(input).value)
  {
    ParseFromConsistent(ReadLines(input), 0, Initial, Start);
  }

  /** With every failure holding a message, the output names each failure followed by its message. */
  lemma {:induction false} OutputWithoutNull(failureMethods: map<int, string>, errorMessages: map<int, string>, order: seq<int>)
    requires failureMethods.Keys == errorMessages.Keys
    requires forall j :: 0 <= j < |order| ==> order[j] in failureMethods
    ensures BuildOutput(failureMethods, errorMessages, order) ==
      JoinLines(seq(|order|, j requires 0 <= j < |order| => failureMethods[order[j]] + errorMessages[order[j]]))
  {
    if order != [] {
      OutputWithoutNull(failureMethods, errorMessages, order[1..]);
      var lines := seq(|order|, j requires 0 <= j < |order| => failureMethods[order[j]] + errorMessages[order[j]]);
      assert lines[1..] == seq(|order| - 1, j requires 0 <= j < |order| - 1 => failureMethods[order[1..][j]] + errorMessages[order[1..][j]]);
    }
  }

  // ---------------------------------------------------------------------
  // Whole outputs
  // ---------------------------------------------------------------------

  lemma DigitsNoBreak(d: string)
    requires AllDigits(d)
    ensures NoLineBreak(d)
  {
    assert forall k :: 0 <= k < |d| ==> IsDigit(d[k]);
  }

  lemma PiecesNoBreak(w: string, x: string, y: string, z: string)
    requires NoLineBreak(w) && NoLineBreak(x) && NoLineBreak(y) && NoLineBreak(z)
    ensures NoLineBreak(w + x + y + z)
  {
    var s := w + x + y + z;
    forall k | 0 <= k < |s|
      ensures !IsLineBreak(s[k])
    {
      if k < |w| {
        assert s[k] == w[k];
      } else if k < |w| + |x| {
        assert s[k] == x[k - |w|];
      } else if k < |w| + |x| + |y| {
        assert s[k] == y[k - |w| - |x|];
      } else {
        assert s[k] == z[k - |w| - |x| - |y|];
      }
    }
  }

  /** Neither fixed prefix holds a line terminator. */
  lemma PrefixesNoBreak()
    ensures NoLineBreak(VersionPrefix) && NoLineBreak(TimePrefix)
  {
    forall k | 0 <= k < |VersionPrefix|
      ensures !IsLineBreak(VersionPrefix[k])
    {
    }
    forall k | 0 <= k < |TimePrefix|
      ensures !IsLineBreak(TimePrefix[k])
    {
    }
  }

  lemma VersionLineNoBreak(prefix: string, a: string, b: string)
    requires NoLineBreak(prefix) && AllDigits(a) && AllDigits(b)
    ensures NoLineBreak(prefix + a + "." + b)
  {
    DigitsNoBreak(a);
    DigitsNoBreak(b);
    PiecesNoBreak(prefix, a, ".", b);
  }

  /** The header a JUnit run prints: version, summary and time lines. */
  function HeaderLines(major: nat, minor: nat, summary: string, seconds: nat, millis: nat): seq<string>
  {
    [VersionPrefix + NatToString(major) + "." + NatToString(minor), summary,
     TimePrefix + NatToString(seconds) + "." + NatToString(millis)]
  }

  /** The version, summary and time of a well-formed header are recorded, and nothing else changes. */
  lemma {:induction false} HeaderRecorded(lines: seq<string>, st: Snapshot, scan: Scan,
                       major: nat, minor: nat, summary: string, seconds: nat, millis: nat)
    requires major <= IntMax && minor <= IntMax && seconds <= IntMax && millis <= IntMax
    requires |lines| >= 3 && lines[..3] == HeaderLines(major, minor, summary, seconds, millis)
    ensures ParseFrom(lines, 0, st, scan) ==
      ParseFrom(lines, 3, st.(version := Some((major, minor)), testResults := Some(Summary(summary)),
                              time := Some((seconds, millis))), scan)
  {
    assert lines[0] == VersionPrefix + NatToString(major) + "." + NatToString(minor);
    assert lines[1] == summary;
    assert lines[2] == TimePrefix + NatToString(seconds) + "." + NatToString(millis);
    VersionMatches(NatToString(major), NatToString(minor));
    TimeMatches(NatToString(seconds), NatToString(millis));
    NatParses(major);
    NatParses(minor);
    NatParses(seconds);
    NatParses(millis);
  }

  /** A blank line and then `OK (n tests)` end a scan with n passes and no failures. */
  lemma {:induction false} PassingTail(lines: seq<string>, st: Snapshot, n: nat)
    requires n <= IntMax && |lines| == 5 && lines[3] == "" && lines[4] == "OK (" + NatToString(n) + " tests)"
    ensures ParseFrom(lines, 3, st, Start) == Success(st.(passes := n, fails := 0))
  {
    BlankLineEndsMessage(st, Start);
    assert ParseFrom(lines, 3, st, Start) == ParseFrom(lines, 4, st, Start);
    NotVersion(lines[4]);
    SuccessLineCounts(st, Start, n, true);
    NotFail(lines[4]);
    NotHeader(lines[4]);
  }

  /** The output of a run in which all n tests pass: the header, a blank line and `OK (n tests)`. */
  function PassingLines(major: nat, minor: nat, dots: string, seconds: nat, millis: nat, n: nat): seq<string>
  {
    HeaderLines(major, minor, dots, seconds, millis) + ["", "OK (" + NatToString(n) + " tests)"]
  }

  lemma PassingLinesNoBreak(major: nat, minor: nat, dots: string, seconds: nat, millis: nat, n: nat)
    requires forall k :: 0 <= k < |dots| ==> dots[k] == '.'
    ensures forall k :: 0 <= k < 5 ==> NoLineBreak(PassingLines(major, minor, dots, seconds, millis, n)[k])
  {
    PrefixesNoBreak();
    VersionLineNoBreak(VersionPrefix, NatToString(major), NatToString(minor));
    VersionLineNoBreak(TimePrefix, NatToString(seconds), NatToString(millis));
    DigitsNoBreak(NatToString(n));
    PiecesNoBreak("OK (", NatToString(n), " tests)", "");
    assert "OK (" + NatToString(n) + " tests)" == "OK (" + NatToString(n) + " tests)" + "";
    assert NoLineBreak(dots);
  }

  /**
   * A run in which every test passes: all n passes are recorded, no
   * failure, and the summary marks every test as passed.
   */
  lemma AllPassing(major: nat, minor: nat, dots: string, seconds: nat, millis: nat, n: nat)
    requires major <= IntMax && minor <= IntMax && seconds <= IntMax && millis <= IntMax && n <= IntMax
    requires forall k :: 0 <= k < |dots| ==> dots[k] == '.'
    ensures var r := ParseText(JoinLines(PassingLines(major, minor, dots, seconds, millis, n)));
      r.Success? && r.value.passes == n && r.value.fails == 0 &&
      r.value.failureMethods == map[] && r.value.errorMessages == map[] &&
      r.value.version == Some((major, minor)) && r.value.time == Some((seconds, millis)) &&
      r.value.testResults.Some? && |r.value.testResults.value| == |dots| &&
      (forall k :: 0 <= k < |dots| ==> r.value.testResults.value[k])
  {
    var lines := PassingLines(major, minor, dots, seconds, millis, n);
    PassingLinesNoBreak(major, minor, dots, seconds, millis, n);
    ReadJoinedLines(lines);
    assert lines[..3] == HeaderLines(major, minor, dots, seconds, millis);
    HeaderRecorded(lines, Initial, Start, major, minor, dots, seconds, millis);
    var st1 := Initial.(version := Some((major, minor)), testResults := Some(Summary(dots)), time := Some((seconds, millis)));
    PassingTail(lines, st1, n);
  }

  /** Output that stops right after the version line has no results line to read. */
  lemma {:induction false} VersionNeedsResults(major: nat, minor: nat)
    requires major <= IntMax && minor <= IntMax
    ensures ParseText(JoinLines([VersionPrefix + NatToString(major) + "." + NatToString(minor)])) ==
      Failure(JUnitParseException(NoResultsLine))
  {
    var line := VersionPrefix + NatToString(major) + "." + NatToString(minor);
    PrefixesNoBreak();
    VersionLineNoBreak(VersionPrefix, NatToString(major), NatToString(minor));
    ReadJoinedLines([line]);
    VersionMatches(NatToString(major), NatToString(minor));
  }

  /** Output that stops after the summary line (the JVM exited mid-run) is reported as JUnit dying. */
  lemma {:induction false} VersionNeedsTime(major: nat, minor: nat, summary: string)
    requires major <= IntMax && minor <= IntMax && NoLineBreak(summary)
    ensures ParseText(JoinLines([VersionPrefix + NatToString(major) + "." + NatToString(minor), summary])) ==
      Failure(JUnitParseException(DiedMessage))
  {
    var line := VersionPrefix + NatToString(major) + "." + NatToString(minor);
    PrefixesNoBreak();
    VersionLineNoBreak(VersionPrefix, NatToString(major), NatToString(minor));
    ReadJoinedLines([line, summary]);
    VersionMatches(NatToString(major), NatToString(minor));
    NatParses(major);
    NatParses(minor);
  }
}
