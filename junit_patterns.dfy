/**
 * The five whole-line patterns the JUnit output parser recognises, as
 * matchers that return the captured groups:
 *
 *   version  `JUnit version (\d*).(\d*)`
 *   time     `Time: (\d*).(\d*)`
 *   success  `OK \((\d*) tests*\)`
 *   failure  `Tests run: (\d*),  Failures: (\d*)`
 *   header   `(\d*)\) (.*)\((.*)\)`
 *
 * Each matcher is paired with its language: a sound ensures (what a match
 * looks like) and a completeness lemma (every line of that shape matches,
 * with exactly those groups), so together they characterise the regex.
 * The unescaped `.` of the version and time patterns matches any
 * character but a line terminator, and `\d*` is greedy.
 */
module JUnitPatterns {
  import opened Wrappers
  import opened JavaText

  /** The end of the run of digits starting at i. */
  function DigitRun(s: string, i: nat): (r: nat)
    requires i <= |s|
    decreases |s| - i
    ensures i <= r <= |s|
    ensures AllDigits(s[i..r])
    ensures r < |s| ==> !IsDigit(s[r])
  {
    if i < |s| && IsDigit(s[i]) then
      var r := DigitRun(s, i + 1);
      assert s[i..r] == [s[i]] + s[i + 1..r];
      r
    else i
  }

  /** A run of digits ends where the first non-digit is. */
  lemma {:induction false} DigitRunAt(s: string, i: nat, n: nat)
    requires i <= n <= |s|
    requires AllDigits(s[i..n]) && (n < |s| ==> !IsDigit(s[n]))
    decreases n - i
    ensures DigitRun(s, i) == n
  {
    if i < n {
      assert IsDigit(s[i..n][0]);
      assert s[i + 1..n] == s[i..n][1..];
      DigitRunAt(s, i + 1, n);
    }
  }

  predicate AllChar(s: string, c: char)
  {
    forall k :: 0 <= k < |s| ==> s[k] == c
  }

  function Repeat(c: char, n: nat): (r: string)
    ensures |r| == n && AllChar(r, c)
  {
    if n == 0 then [] else Repeat(c, n - 1) + [c]
  }

  // ---------------------------------------------------------------------
  // `(\d*).(\d*)` after a fixed prefix: the version and time lines
  // ---------------------------------------------------------------------

  /** The regex `(\d*).(\d*)` matches s with the dot at position p. */
  predicate DotAt(s: string, p: nat)
  {
    p < |s| && AllDigits(s[..p]) && DotChar(s[p]) && AllDigits(s[p + 1..])
  }

  /** The greediest dot position below n (the first group is greedy). */
  function DotBelow(s: string, n: nat): (r: Option<nat>)
    requires n <= |s|
    ensures r.Some? ==> r.value < n && DotAt(s, r.value)
    ensures r.Some? ==> forall p :: r.value < p < n ==> !DotAt(s, p)
    ensures r.None? ==> forall p :: 0 <= p < n ==> !DotAt(s, p)
  {
    if n == 0 then None
    else if DotAt(s, n - 1) then Some(n - 1)
    else DotBelow(s, n - 1)
  }

  /** The two groups of `(\d*).(\d*)` matched against the whole of s: the first group ends at the dot. */
  function DotSplit(s: string): (r: Option<(string, string)>)
    ensures r.Some? ==> DotAt(s, |r.value.0|) && r.value == (s[..|r.value.0|], s[|r.value.0| + 1..])
    ensures r.None? <==> forall p :: 0 <= p < |s| ==> !DotAt(s, p)
  {
    match DotBelow(s, |s|)
    case None => None
    case Some(p) => Some((s[..p], s[p + 1..]))
  }

  /** Digits, a dot and digits split back into the two runs of digits. */
  lemma DotSplitDigits(a: string, b: string)
    requires AllDigits(a) && AllDigits(b)
    ensures DotSplit(a + "." + b) == Some((a, b))
  {
    var s := a + "." + b;
    assert s[..|a|] == a && s[|a| + 1..] == b;
    assert DotAt(s, |a|);
    forall p | |a| < p < |s|
      ensures !DotAt(s, p)
    {
      assert s[..p][|a|] == '.';
    }
    var r := DotBelow(s, |s|);
    assert r.Some? && r.value == |a|;
  }

  /** A line that is the prefix and then s, split at position p of s, is the prefix and the three pieces. */
  lemma DottedJoin(prefix: string, line: string, p: nat)
    requires StartsWith(line, prefix) && p < |line| - |prefix|
    ensures line == prefix + line[|prefix|..][..p] + [line[|prefix| + p]] + line[|prefix|..][p + 1..]
  {
    var s := line[|prefix|..];
    assert s == s[..p] + [s[p]] + s[p + 1..];
    assert line == line[..|prefix|] + s;
  }

  /** `prefix(\d*).(\d*)` against the whole line: the two digit groups. */
  function MatchDotted(prefix: string, line: string): (r: Option<(string, string)>)
    ensures r.Some? ==> StartsWith(line, prefix)
    ensures r.Some? ==> AllDigits(r.value.0) && AllDigits(r.value.1)
    ensures r.Some? ==> exists c :: DotChar(c) && line == prefix + r.value.0 + [c] + r.value.1
  {
    if !StartsWith(line, prefix) then None
    else
      var r := DotSplit(line[|prefix|..]);
      if r.Some? then
        DottedJoin(prefix, line, |r.value.0|);
        assert DotChar(line[|prefix| + |r.value.0|]);
        r
      else r
  }

  /** Every line made of the prefix, digits, a dot and digits matches with the two digit runs. */
  lemma DottedMatches(prefix: string, a: string, b: string)
    requires AllDigits(a) && AllDigits(b)
    ensures MatchDotted(prefix, prefix + a + "." + b) == Some((a, b))
  {
    var line := prefix + a + "." + b;
    assert line[..|prefix|] == prefix;
    assert line[|prefix|..] == a + "." + b;
    DotSplitDigits(a, b);
  }

  const VersionPrefix: string := "JUnit version "
  const TimePrefix: string := "Time: "

  /** VERSION_PATTERN: the major and minor groups. */
  function MatchVersion(line: string): Option<(string, string)>
  {
    MatchDotted(VersionPrefix, line)
  }

  /** TIME_PATTERN: the seconds and fraction groups. */
  function MatchTime(line: string): Option<(string, string)>
  {
    MatchDotted(TimePrefix, line)
  }

  /** Every `JUnit version a.b` line matches with groups a and b. */
  lemma VersionMatches(a: string, b: string)
    requires AllDigits(a) && AllDigits(b)
    ensures MatchVersion(VersionPrefix + a + "." + b) == Some((a, b))
  {
    DottedMatches(VersionPrefix, a, b);
  }

  /** Every `Time: a.b` line matches with groups a and b. */
  lemma TimeMatches(a: string, b: string)
    requires AllDigits(a) && AllDigits(b)
    ensures MatchTime(TimePrefix + a + "." + b) == Some((a, b))
  {
    DottedMatches(TimePrefix, a, b);
  }

  // ---------------------------------------------------------------------
  // `OK \((\d*) tests*\)`
  // ---------------------------------------------------------------------

  /** The line is `OK (` d ` test` followed by zero or more `s` and `)`. */
  predicate SuccessShape(line: string, d: string)
  {
    |line| >= |d| + 10 && line[..4] == "OK (" && line[4..4 + |d|] == d &&
    line[4 + |d|..9 + |d|] == " test" && AllChar(line[9 + |d|..|line| - 1], 's') &&
    line[|line| - 1] == ')'
  }

  /** SUCCESS_PATTERN: the count group. */
  function MatchSuccess(line: string): (r: Option<string>)
    ensures r.Some? ==> AllDigits(r.value) && SuccessShape(line, r.value)
  {
    if |line| < 10 || line[..4] != "OK (" || line[|line| - 1] != ')' then None
    else
      var m := line[4..|line| - 1];
      var d := DigitRun(m, 0);
      var rest := m[d..];
      if |rest| >= 5 && rest[..5] == " test" && AllChar(rest[5..], 's') then
        assert m[..d] == line[4..4 + d];
        assert rest[..5] == line[4 + d..9 + d];
        assert rest[5..] == line[9 + d..|line| - 1];
        Some(m[..d])
      else None
  }

  /** Every line of the success shape matches with its count group. */
  lemma SuccessMatches(line: string, d: string)
    requires AllDigits(d) && SuccessShape(line, d)
    ensures MatchSuccess(line) == Some(d)
  {
    var m := line[4..|line| - 1];
    assert m[..|d|] == d;
    assert line[4 + |d|..9 + |d|][0] == ' ';
    assert m[|d|] == ' ';
    DigitRunAt(m, 0, |d|);
    var rest := m[|d|..];
    assert rest[..5] == line[4 + |d|..9 + |d|];
    assert rest[5..] == line[9 + |d|..|line| - 1];
  }

  /** JUnit's own summary line, `OK (n test)` or `OK (n tests)`, matches with n. */
  lemma SuccessLineMatches(d: string, plural: bool)
    requires AllDigits(d)
    ensures MatchSuccess("OK (" + d + (if plural then " tests)" else " test)")) == Some(d)
  {
    var line := "OK (" + d + (if plural then " tests)" else " test)");
    assert line[..4] == "OK (" && line[4..4 + |d|] == d;
    assert line[4 + |d|..9 + |d|] == " test";
    assert AllChar(line[9 + |d|..|line| - 1], 's');
    SuccessMatches(line, d);
  }

  // ---------------------------------------------------------------------
  // `Tests run: (\d*),  Failures: (\d*)`
  // ---------------------------------------------------------------------

  const RunPrefix: string := "Tests run: "
  const FailuresInfix: string := ",  Failures: "

  /** FAIL_PATTERN: the run and failure count groups. */
  function MatchFail(line: string): (r: Option<(string, string)>)
    ensures r.Some? ==> AllDigits(r.value.0) && AllDigits(r.value.1)
    ensures r.Some? ==> line == RunPrefix + r.value.0 + FailuresInfix + r.value.1
  {
    if |line| < |RunPrefix| || line[..|RunPrefix|] != RunPrefix then None
    else
      var rest := line[|RunPrefix|..];
      var d := DigitRun(rest, 0);
      var after := rest[d..];
      if |after| >= |FailuresInfix| && after[..|FailuresInfix|] == FailuresInfix && AllDigits(after[|FailuresInfix|..]) then
        assert after == FailuresInfix + after[|FailuresInfix|..];
        assert rest == rest[..d] + after;
        assert line == RunPrefix + rest;
        Some((rest[..d], after[|FailuresInfix|..]))
      else None
  }

  /** Every `Tests run: a,  Failures: b` line matches with groups a and b. */
  lemma FailMatches(a: string, b: string)
    requires AllDigits(a) && AllDigits(b)
    ensures MatchFail(RunPrefix + a + FailuresInfix + b) == Some((a, b))
  {
    var line := RunPrefix + a + FailuresInfix + b;
    var rest := line[|RunPrefix|..];
    assert rest == a + FailuresInfix + b;
    assert rest[..|a|] == a;
    assert rest[|a|] == ',';
    DigitRunAt(rest, 0, |a|);
    var after := rest[|a|..];
    assert after == FailuresInfix + b;
    assert after[..|FailuresInfix|] == FailuresInfix;
    assert after[|FailuresInfix|..] == b;
  }

  // ---------------------------------------------------------------------
  // `(\d*)\) (.*)\((.*)\)`
  // ---------------------------------------------------------------------

  /** The last occurrence of c strictly before n. */
  function LastBefore(s: string, c: char, n: nat): (r: Option<nat>)
    requires n <= |s|
    ensures r.Some? ==> r.value < n && s[r.value] == c
    ensures r.Some? ==> forall k :: r.value < k < n ==> s[k] != c
    ensures r.None? ==> forall k :: 0 <= k < n ==> s[k] != c
  {
    if n == 0 then None
    else if s[n - 1] == c then Some(n - 1)
    else LastBefore(s, c, n - 1)
  }

  /** `(.*)\((.*)\)` against the whole of s: the greedy first group ends at the last `(`. */
  function SplitCall(s: string): (r: Option<(string, string)>)
    ensures r.Some? ==> AllDot(r.value.0) && AllDot(r.value.1) && '(' !in r.value.1
    ensures r.Some? ==> s == r.value.0 + "(" + r.value.1 + ")"
  {
    if |s| < 2 || s[|s| - 1] != ')' || !AllDot(s) then None
    else
      match LastBefore(s, '(', |s| - 1)
      case None => None
      case Some(q) =>
        var name := s[..q];
        var cls := s[q + 1..|s| - 1];
        assert s == name + "(" + cls + ")";
        assert forall k :: 0 <= k < |cls| ==> cls[k] == s[q + 1 + k];
        Some((name, cls))
  }

  /** TEST_HEADER_PATTERN: the test number, the method name and the class name. */
  function MatchHeader(line: string): (r: Option<(string, string, string)>)
    ensures r.Some? ==> AllDigits(r.value.0) && AllDot(r.value.1) && AllDot(r.value.2)
    ensures r.Some? ==> '(' !in r.value.2
    ensures r.Some? ==> line == r.value.0 + ") " + r.value.1 + "(" + r.value.2 + ")"
  {
    var d := DigitRun(line, 0);
    var after := line[d..];
    if |after| < 2 || after[..2] != ") " then None
    else
      assert line[d..d + 2] == after[..2] && line[d + 2..] == after[2..];
      match SplitCall(after[2..])
      case None => None
      case Some(call) =>
        HeaderJoin(line, d, call.0, call.1);
        Some((line[..d], call.0, call.1))
  }

  lemma HeaderJoin(line: string, d: nat, name: string, cls: string)
    requires d + 2 <= |line| && line[d..d + 2] == ") "
    requires line[d + 2..] == name + "(" + cls + ")"
    ensures line == line[..d] + ") " + name + "(" + cls + ")"
  {
    assert line == line[..d] + line[d..d + 2] + line[d + 2..];
  }

  /** `name(class)` splits back into its name and class when the class holds no `(`. */
  lemma CallMatches(name: string, cls: string)
    requires AllDot(name) && AllDot(cls) && '(' !in cls
    ensures SplitCall(name + "(" + cls + ")") == Some((name, cls))
  {
    var rest := name + "(" + cls + ")";
    assert AllDot(rest) by {
      forall k | 0 <= k < |rest|
        ensures DotChar(rest[k])
      {
        if k < |name| {
          assert rest[k] == name[k];
        } else if |name| < k < |rest| - 1 {
          assert rest[k] == cls[k - |name| - 1];
        }
      }
    }
    forall k | |name| < k < |rest| - 1
      ensures rest[k] != '('
    {
      assert rest[k] == cls[k - |name| - 1];
    }
    assert rest[|name|] == '(' && rest[|rest| - 1] == ')';
    var q := LastBefore(rest, '(', |rest| - 1);
    assert q.Some?;
    assert q.value == |name|;
    assert rest[..|name|] == name;
    assert rest[|name| + 1..|rest| - 1] == cls;
  }

  /** Every header line matches, the name taking all but the last `(...)`. */
  lemma HeaderMatches(num: string, name: string, cls: string)
    requires AllDigits(num) && AllDot(name) && AllDot(cls) && '(' !in cls
    ensures MatchHeader(num + ") " + name + "(" + cls + ")") == Some((num, name, cls))
  {
    var line := num + ") " + name + "(" + cls + ")";
    assert line[..|num|] == num;
    assert line[|num|] == ')';
    DigitRunAt(line, 0, |num|);
    var after := line[|num|..];
    assert after == ") " + name + "(" + cls + ")";
    assert after[2..] == name + "(" + cls + ")";
    CallMatches(name, cls);
  }
}
