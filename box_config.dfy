/**
 * The strict parser for box files: one `key=value` assignment per line,
 * `#` comment lines and empty lines skipped, and any other line without an
 * `=` rejected with its 1-based line number. The parsed configuration is an
 * immutable map from keys to raw string values.
 */
module BoxConfig {
  import opened Wrappers
  import opened JavaText

  /** A parsed box: the immutable key to value mapping behind `ChalkboxConfig`. */
  datatype Config = Config(entries: map<string, string>)
  {
    /** `value(key)`: the stored value, None for Java's null. */
    function Value(key: string): (r: Option<string>)
      ensures r.Some? <==> key in entries
      ensures r.Some? ==> r.value == entries[key]
    {
      if key in entries then Some(entries[key]) else None
    }

    /** `isSet(key)`: the key was assigned by some line, exactly when `value(key)` is not null. */
    predicate IsSet(key: string)
      ensures IsSet(key) <==> Value(key).Some?
    {
      key in entries
    }

    /** `toMap()`: a copy with exactly the set keys and their values. */
    function ToMap(): (r: map<string, string>)
      ensures forall k :: k in r <==> IsSet(k)
      ensures forall k :: k in r ==> Value(k) == Some(r[k])
    {
      map k | k in entries :: entries[k]
    }
  }

  /** A line the parser passes over: a comment or an empty line. */
  predicate Skipped(line: string)
  {
    StartsWith(line, "#") || line == []
  }

  /** A line that makes the parse fail: neither skipped nor holding an `=`. */
  predicate Malformed(line: string)
  {
    !Skipped(line) && !Contains(line, "=")
  }

  /** The assignment a line makes: key and value around its first `=`. */
  function Assignment(line: string): (r: Option<(string, string)>)
    ensures r.Some? <==> !Skipped(line) && Contains(line, "=")
    ensures r.Some? ==> line == r.value.0 + "=" + r.value.1
  {
    if Skipped(line) then None else SplitFirst(line, "=")
  }

  /** The message of the ConfigParseException for line number n. */
  function LineError(n: nat): string
  {
    "Line " + IntToString(n) + " doesn't have a key value assignment"
  }

  /** The map after a line that is not malformed: its assignment is stored; a comment or empty line changes nothing. */
  function NextAcc(acc: map<string, string>, line: string): map<string, string>
  {
    match Assignment(line)
    case None => acc
    case Some((k, v)) => acc[k := v]
  }

  /** The parse from line index i on, with the assignments so far in acc. */
  function ParseFrom(lines: seq<string>, i: nat, acc: map<string, string>): Result<map<string, string>, string>
    requires i <= |lines|
    decreases |lines| - i
  {
    if i == |lines| then Success(acc)
    else if Malformed(lines[i]) then Failure(LineError(i + 1))
    else ParseFrom(lines, i + 1, NextAcc(acc, lines[i]))
  }

  /** What `read` makes of the whole input text. */
  function Parse(input: string): Result<map<string, string>, string>
  {
    ParseFrom(ReadLines(input), 0, map[])
  }

  /**
   * `read(InputStream)`: reads line after line, counting line numbers from 1,
   * and stores each assignment, a later one overwriting an earlier one.
   */
  method Read(input: string) returns (r: Result<Config, string>)
    ensures r.Success? <==> Parse(input).Success?
    ensures r.Success? ==> r.value.entries == Parse(input).value
    ensures r.Failure? ==> r.error == Parse(input).error
  {
    var lines := ReadLines(input);
    var m: map<string, string> := map[];
    var lineNumber := 0;
    while lineNumber < |lines|
      invariant 0 <= lineNumber <= |lines|
      invariant ParseFrom(lines, lineNumber, m) == Parse(input)
    {
      var line := lines[lineNumber];
      lineNumber := lineNumber + 1;
      if Skipped(line) {
        continue;
      }
      var parts := SplitFirst(line, "=");
      if parts.None? {
        return Failure(LineError(lineNumber));
      }
      m := m[parts.value.0 := parts.value.1];
    }
    return Success(Config(m));
  }

  /** `read(Path)`: a file that cannot be found is reported as such. */
  method ReadPath(file: Option<string>) returns (r: Result<Config, string>)
    ensures file.None? ==> r == Failure("Unable to find the config file")
    ensures file.Some? ==> (r.Success? <==> Parse(file.value).Success?)
    ensures file.Some? && r.Success? ==> r.value.entries == Parse(file.value).value
  {
    if file.None? {
      return Failure("Unable to find the config file");
    }
    r := Read(file.value);
  }

  /** Index of the first malformed line at or after i, or |lines|. */
  function FirstMalformed(lines: seq<string>, i: nat): (r: nat)
    requires i <= |lines|
    ensures i <= r <= |lines|
    ensures r < |lines| ==> Malformed(lines[r])
    ensures forall j {:trigger Malformed(lines[j])} :: i <= j < r ==> !Malformed(lines[j])
    decreases |lines| - i
  {
    if i == |lines| then i
    else if Malformed(lines[i]) then i
    else FirstMalformed(lines, i + 1)
  }

  /** One line of the parse: a malformed line fails with its number, any other is passed over or stored. */
  lemma ParseStep(lines: seq<string>, i: nat, acc: map<string, string>)
    requires i < |lines|
    ensures Malformed(lines[i]) ==> ParseFrom(lines, i, acc) == Failure(LineError(i + 1))
    ensures !Malformed(lines[i]) ==> ParseFrom(lines, i, acc) == ParseFrom(lines, i + 1, NextAcc(acc, lines[i]))
  {
  }

  /** The parse fails exactly at the first malformed line, naming its 1-based number. */
  lemma {:induction false} ParseFromFails(lines: seq<string>, i: nat, acc: map<string, string>)
    requires i <= |lines|
    ensures ParseFrom(lines, i, acc).Failure? <==> FirstMalformed(lines, i) < |lines|
    ensures ParseFrom(lines, i, acc).Failure? ==>
      ParseFrom(lines, i, acc).error == LineError(FirstMalformed(lines, i) + 1)
    decreases |lines| - i
  {
    if i < |lines| {
      ParseStep(lines, i, acc);
      if !Malformed(lines[i]) {
        ParseFromFails(lines, i + 1, NextAcc(acc, lines[i]));
        assert FirstMalformed(lines, i) == FirstMalformed(lines, i + 1);
      }
    }
  }

  /** A box is rejected iff one of its lines is malformed; the error names the first such line. */
  lemma {:induction false} ParseFails(input: string)
    ensures Parse(input).Failure? <==> exists j :: 0 <= j < |ReadLines(input)| && Malformed(ReadLines(input)[j])
    ensures Parse(input).Failure? ==> Parse(input).error == LineError(FirstMalformed(ReadLines(input), 0) + 1)
  {
    var lines := ReadLines(input);
    ParseFromFails(lines, 0, map[]);
    var f := FirstMalformed(lines, 0);
    if f < |lines| {
      assert Malformed(lines[f]);
    }
  }

  /** Line j assigns key k. */
  predicate Assigns(line: string, k: string)
  {
    Assignment(line).Some? && Assignment(line).value.0 == k
  }

  /** Line j is the last line at or after i that assigns k. */
  predicate LastAssigns(lines: seq<string>, i: nat, j: nat, k: string)
  {
    i <= j < |lines| && Assigns(lines[j], k) &&
    forall j' {:trigger Assigns(lines[j'], k)} :: j < j' < |lines| ==> !Assigns(lines[j'], k)
  }

  /**
   * On success every key of the result is one assigned from line i on or one
   * already in acc, and its value is that of the last line assigning it.
   */
  lemma {:induction false} ParseFromLastWins(lines: seq<string>, i: nat, acc: map<string, string>, k: string)
    requires i <= |lines| && ParseFrom(lines, i, acc).Success?
    ensures k in ParseFrom(lines, i, acc).value <==>
      k in acc || exists j {:trigger Assigns(lines[j], k)} :: i <= j < |lines| && Assigns(lines[j], k)
    ensures forall j: nat :: LastAssigns(lines, i, j, k) ==>
      k in ParseFrom(lines, i, acc).value && ParseFrom(lines, i, acc).value[k] == Assignment(lines[j]).value.1
    ensures (forall j {:trigger Assigns(lines[j], k)} :: i <= j < |lines| ==> !Assigns(lines[j], k)) && k in acc ==>
      k in ParseFrom(lines, i, acc).value && ParseFrom(lines, i, acc).value[k] == acc[k]
    decreases |lines| - i
  {
    KeysAfterParse(lines, i, acc, k);
    forall j: nat | LastAssigns(lines, i, j, k)
      ensures k in ParseFrom(lines, i, acc).value && ParseFrom(lines, i, acc).value[k] == Assignment(lines[j]).value.1
    {
      LastAssignmentFrom(lines, i, acc, k, j);
    }
    if k in acc && forall j {:trigger Assigns(lines[j], k)} :: i <= j < |lines| ==> !Assigns(lines[j], k) {
      KeptFrom(lines, i, acc, k);
    }
  }

  /** The keys of a successful parse: those in acc and those assigned from line i on. */
  lemma {:induction false} KeysAfterParse(lines: seq<string>, i: nat, acc: map<string, string>, k: string)
    requires i <= |lines| && ParseFrom(lines, i, acc).Success?
    ensures k in ParseFrom(lines, i, acc).value <==>
      k in acc || exists j {:trigger Assigns(lines[j], k)} :: i <= j < |lines| && Assigns(lines[j], k)
    decreases |lines| - i
  {
    if i < |lines| {
      ParseStep(lines, i, acc);
      assert !Malformed(lines[i]);
      var next := NextAcc(acc, lines[i]);
      KeysAfterParse(lines, i + 1, next, k);
      assert k in next <==> k in acc || Assigns(lines[i], k);
    }
  }

  /** The value of a key is that of the last line assigning it. */
  lemma {:induction false} LastAssignmentFrom(lines: seq<string>, i: nat, acc: map<string, string>, k: string, j: nat)
    requires i <= |lines| && ParseFrom(lines, i, acc).Success? && LastAssigns(lines, i, j, k)
    ensures k in ParseFrom(lines, i, acc).value && ParseFrom(lines, i, acc).value[k] == Assignment(lines[j]).value.1
    decreases |lines| - i
  {
    ParseStep(lines, i, acc);
    assert !Malformed(lines[i]);
    var next := NextAcc(acc, lines[i]);
    if j > i {
      assert LastAssigns(lines, i + 1, j, k);
      LastAssignmentFrom(lines, i + 1, next, k, j);
    } else {
      assert k in next && next[k] == Assignment(lines[j]).value.1;
      KeptFrom(lines, i + 1, next, k);
    }
  }

  /** A key in acc that no line from i on assigns keeps its value. */
  lemma {:induction false} KeptFrom(lines: seq<string>, i: nat, acc: map<string, string>, k: string)
    requires i <= |lines| && ParseFrom(lines, i, acc).Success? && k in acc
    requires forall j {:trigger Assigns(lines[j], k)} :: i <= j < |lines| ==> !Assigns(lines[j], k)
    ensures k in ParseFrom(lines, i, acc).value && ParseFrom(lines, i, acc).value[k] == acc[k]
    decreases |lines| - i
  {
    if i < |lines| {
      ParseStep(lines, i, acc);
      assert !Malformed(lines[i]) && !Assigns(lines[i], k);
      KeptFrom(lines, i + 1, NextAcc(acc, lines[i]), k);
    }
  }

  /** Some line of the box assigns key k. */
  predicate AssignedIn(lines: seq<string>, k: string)
  {
    exists j {:trigger Assigns(lines[j], k)} :: 0 <= j < |lines| && Assigns(lines[j], k)
  }

  /** For a parsed box, the keys are exactly the assigned ones and the last assignment of each key wins. */
  lemma {:induction false} LastAssignmentWins(input: string, k: string)
    requires Parse(input).Success?
    ensures k in Parse(input).value <==> AssignedIn(ReadLines(input), k)
    ensures forall j: nat :: LastAssigns(ReadLines(input), 0, j, k) ==>
      (k in Parse(input).value && Parse(input).value[k] == Assignment(ReadLines(input)[j]).value.1)
  {
    var lines := ReadLines(input);
    var empty: map<string, string> := map[];
    assert Parse(input) == ParseFrom(lines, 0, empty);
    ParseFromLastWins(lines, 0, empty, k);
    assert k !in empty;
  }

  /** `k=v` lines for the keys ks of m, in the order of ks. */
  function RenderLines(m: map<string, string>, ks: seq<string>): (r: seq<string>)
    requires forall k :: k in ks ==> k in m
    ensures |r| == |ks|
    ensures forall j :: 0 <= j < |ks| ==> r[j] == ks[j] + "=" + m[ks[j]]
  {
    if ks == [] then [] else [ks[0] + "=" + m[ks[0]]] + RenderLines(m, ks[1..])
  }

  /** A key the format can carry: no `=`, no line break, not starting a comment. */
  predicate GoodKey(k: string)
  {
    '=' !in k && NoLineBreak(k) && !StartsWith(k, "#")
  }

  /** The map after storing the first j rendered lines. */
  function Stored(m: map<string, string>, ks: seq<string>, j: nat): (r: map<string, string>)
    requires j <= |ks| && forall k :: k in ks ==> k in m
    ensures forall k :: k in r <==> k in ks[..j]
    ensures forall k :: k in r ==> r[k] == m[k]
  {
    if j == 0 then map[]
    else
      assert ks[..j] == ks[..j - 1] + [ks[j - 1]];
      Stored(m, ks, j - 1)[ks[j - 1] := m[ks[j - 1]]]
  }

  /** Parsing rendered lines from j on, after the first j keys were stored, yields the whole map. */
  lemma {:induction false} ParseRendered(m: map<string, string>, ks: seq<string>, j: nat)
    requires forall k :: k in m <==> k in ks
    requires forall k :: k in m ==> GoodKey(k) && NoLineBreak(m[k])
    requires j <= |ks|
    ensures ParseFrom(RenderLines(m, ks), j, Stored(m, ks, j)) == Success(m)
    decreases |ks| - j
  {
    var lines := RenderLines(m, ks);
    if j == |ks| {
      assert ks[..j] == ks;
      assert Stored(m, ks, j) == m;
    } else {
      var k := ks[j];
      SplitAtFirstSep(k, m[k], '=');
      assert lines[j] == k + "=" + m[k];
      assert lines[j][0] != '#' by {
        if k != [] {
          assert lines[j][0] == k[0];
          assert !StartsWith(k, "#");
        }
      }
      assert Assignment(lines[j]) == Some((k, m[k]));
      ParseRendered(m, ks, j + 1);
    }
  }

  /** Writing a map as `k=v` lines and reading it back gives the same map. */
  lemma {:induction false} RoundTrip(m: map<string, string>, ks: seq<string>)
    requires forall k :: k in m <==> k in ks
    requires forall k :: k in m ==> GoodKey(k) && NoLineBreak(m[k])
    ensures Parse(JoinLines(RenderLines(m, ks))) == Success(m)
  {
    var lines := RenderLines(m, ks);
    forall j | 0 <= j < |lines|
      ensures NoLineBreak(lines[j])
    {
      var k := ks[j];
      assert lines[j] == k + "=" + m[k];
      forall p | 0 <= p < |lines[j]|
        ensures !IsLineBreak(lines[j][p])
      {
        if p < |k| {
          assert lines[j][p] == k[p];
        } else if p > |k| {
          assert lines[j][p] == m[k][p - |k| - 1];
        }
      }
    }
    ReadJoinedLines(lines);
    ParseRendered(m, ks, 0);
  }
}
