/**
 * The Blackboard gradebook collector. Each submission in the gradebook
 * comes with a text file of `key: value` lines; `readSubmissionFile`
 * turns it into submission data, and `collect` keeps one collection per
 * student number.
 *
 * The zip archive, the copying of the submitted files and the loading of
 * an existing JSON data file are not part of this model: the gradebook is
 * given as a sequence of (entry name, text) pairs, and `loadData` is taken
 * in its no-file case, where it returns the data it was given.
 */
module Blackboard {
  import opened Wrappers
  import opened JavaText

  const Unnamed: string := "unnamed"
  const OriginalFilename: string := "\tOriginal filename"
  const FilenameKey: string := "\tFilename"
  const KeySep: string := ": "
  const NullKey: string := "NullPointerException"
  const IndexError: string := "ArrayIndexOutOfBoundsException"

  /** The loop state of `readSubmissionFile`; `pending` is `lastKey`, None for null. */
  datatype Reading = Reading(fields: map<string, string>, files: map<string, string>,
                             pending: Option<string>, currentFile: string)

  const Start: Reading := Reading(map[], map[], None, Unnamed)

  /** The data a submission file yields: its text fields and the `files` store. */
  datatype Submission = Submission(fields: map<string, string>, files: map<string, string>)

  /** A line that is not blank and has no `": "` but has a `:` names the pending key. */
  predicate KeyLine(line: string)
  {
    !Contains(line, KeySep) && ':' in line
  }

  /** A line with neither `": "` nor `:` continues the pending key's value. */
  predicate ValueLine(line: string)
  {
    line != "" && ':' !in line
  }

  /** One line of the submission file. */
  function ReadLine(st: Reading, line: string): (r: Result<Reading, string>)
    ensures r.Failure? <==>
      (KeyLine(line) && Split(line, ':') == []) || (ValueLine(line) && st.pending.None?)
    ensures r.Success? && !ValueLine(line) && !Contains(line, KeySep) ==> r.value.fields == st.fields
  {
    if line == "" then Success(st)
    else
      match SplitFirst(line, KeySep)
      case Some((key, value)) =>
        if key == OriginalFilename then Success(st.(currentFile := Escape(value)))
        else if key == FilenameKey then Success(st.(files := st.files[st.currentFile := value]))
        else if key in st.fields then Success(st)
        else Success(st.(fields := st.fields[key := value]))
      case None =>
        if ':' in line then
          var parts := Split(line, ':');
          if parts == [] then Failure(IndexError) else Success(st.(pending := Some(parts[0])))
        else
          match st.pending
          case None => Failure(NullKey)
          case Some(k) =>
            Success(st.(fields := st.fields[k := if k in st.fields then st.fields[k] + line else line]))
  }

  /** The loop over the remaining lines. */
  function ReadFrom(st: Reading, lines: seq<string>): Result<Reading, string>
    decreases |lines|
  {
    if lines == [] then Success(st)
    else
      match ReadLine(st, lines[0])
      case Failure(e) => Failure(e)
      case Success(next) => ReadFrom(next, lines[1..])
  }

  /** The last index at or below n - 1, at or above lo, holding `)`. */
  function LastClose(s: string, lo: nat, n: nat): (r: Option<nat>)
    requires lo <= n <= |s|
    ensures r.Some? ==> lo <= r.value < n && s[r.value] == ')'
    ensures r.Some? ==> forall k :: r.value < k < n ==> s[k] != ')'
    ensures r.None? ==> forall k :: lo <= k < n ==> s[k] != ')'
    decreases n
  {
    if n == lo then None
    else if s[n - 1] == ')' then Some(n - 1)
    else LastClose(s, lo, n - 1)
  }

  /** The end of the run of `.`-matching characters starting at i. */
  function DotEnd(s: string, i: nat): (r: nat)
    requires i <= |s|
    ensures i <= r <= |s| && AllDot(s[i..r])
    ensures r < |s| ==> !DotChar(s[r])
    decreases |s| - i
  {
    if i == |s| || !DotChar(s[i]) then i
    else
      var r := DotEnd(s, i + 1);
      assert s[i..r] == [s[i]] + s[i + 1..r];
      r
  }

  /** `\((.*)\)` matches at p with group s[p+1..q]. */
  predicate GroupAt(s: string, p: nat, q: nat)
  {
    p < q < |s| && s[p] == '(' && s[q] == ')' && AllDot(s[p + 1..q])
  }

  /** The group of the match starting at the `(` at p: up to the last `)` before a line break. */
  function MatchAt(s: string, p: nat): (r: Option<nat>)
    requires p < |s| && s[p] == '('
    ensures r.Some? ==> GroupAt(s, p, r.value)
    ensures r.Some? ==> forall q :: r.value < q < |s| ==> !GroupAt(s, p, q)
    ensures r.None? ==> forall q :: p < q < |s| ==> !GroupAt(s, p, q)
  {
    var e := DotEnd(s, p + 1);
    var r := LastClose(s, p + 1, e);
    if r.Some? then
      DotRunPrefix(s, p + 1, r.value, e);
      forall q | r.value < q < |s| && GroupAt(s, p, q)
        ensures false
      {
        GroupInsideRun(s, p, e, q);
      }
      r
    else
      forall q | p < q < |s| && GroupAt(s, p, q)
        ensures false
      {
        GroupInsideRun(s, p, e, q);
      }
      r
  }

  /** A prefix of a run of `.`-matching characters is one too. */
  lemma DotRunPrefix(s: string, i: nat, j: nat, e: nat)
    requires i <= j <= e <= |s| && AllDot(s[i..e])
    ensures AllDot(s[i..j])
  {
    forall k | 0 <= k < j - i
      ensures DotChar(s[i..j][k])
    {
      assert s[i..j][k] == s[i..e][k];
    }
  }

  /** The `)` closing a group lies inside the maximal `.` run that starts after its `(`. */
  lemma GroupInsideRun(s: string, p: nat, e: nat, q: nat)
    requires p + 1 <= e <= |s| && (e < |s| ==> !DotChar(s[e]))
    requires GroupAt(s, p, q)
    ensures q < e
  {
  }

  /**
   * The match `find()` reports from p on: it starts at the leftmost `(`
   * at or after p that has a match at all, and the greedy group runs to
   * the last `)` that `.*` can reach from there.
   */
  ghost predicate FirstGroup(s: string, p: nat, i: nat, q: nat)
  {
    p <= i && GroupAt(s, i, q)
    && (forall j: nat, q2: nat :: p <= j < i ==> !GroupAt(s, j, q2))
    && (forall q2: nat :: q < q2 ==> !GroupAt(s, i, q2))
  }

  /** At most one match is the leftmost and longest, so FirstGroup pins the result. */
  lemma FirstGroupUnique(s: string, p: nat, i: nat, q: nat, i2: nat, q2: nat)
    requires FirstGroup(s, p, i, q) && FirstGroup(s, p, i2, q2)
    ensures i == i2 && q == q2
  {
  }

  /** `Matcher.find()` from position p on, returning group 1. */
  function FindFrom(s: string, p: nat): (r: Option<string>)
    requires p <= |s|
    ensures r.Some? ==> exists i: nat, q: nat :: FirstGroup(s, p, i, q) && r.value == s[i + 1..q]
    ensures r.None? ==> forall i: nat, q: nat :: p <= i ==> !GroupAt(s, i, q)
    decreases |s| - p
  {
    if p == |s| then None
    else if s[p] == '(' && MatchAt(s, p).Some? then
      assert FirstGroup(s, p, p, MatchAt(s, p).value);
      Some(s[p + 1..MatchAt(s, p).value])
    else
      var r := FindFrom(s, p + 1);
      assert forall q: nat :: !GroupAt(s, p, q);
      assert r.Some? ==> exists i: nat, q: nat :: FirstGroup(s, p, i, q) && r.value == s[i + 1..q] by {
        if r.Some? {
          var i: nat, q: nat :| FirstGroup(s, p + 1, i, q) && r.value == s[i + 1..q];
          assert FirstGroup(s, p, i, q);
        }
      }
      r
  }

  /** The student number in a `Name` value: group 1 of `\((.*)\)`, if it matches anywhere. */
  function SidOf(name: string): (r: Option<string>)
    ensures r.Some? ==> exists i: nat, q: nat :: FirstGroup(name, 0, i, q) && r.value == name[i + 1..q]
    ensures r.None? <==> forall i: nat, q: nat :: !GroupAt(name, i, q)
  {
    FindFrom(name, 0)
  }

  /** Two parenthesised parts on one line: the group runs from the first `(` to the last `)`. */
  lemma SidOfGreedy()
    ensures SidOf("A (x) B (y)") == Some("x) B (y")
  {
    var s := "A (x) B (y)";
    assert s[3..10] == "x) B (y";
    assert AllDot(s[3..10]);
    assert GroupAt(s, 2, 10);
    assert FirstGroup(s, 0, 2, 10);
    var r := SidOf(s);
    var i: nat, q: nat :| FirstGroup(s, 0, i, q) && r.value == s[i + 1..q];
    FirstGroupUnique(s, 0, i, q, 2, 10);
  }

  /** After the loop: `files` replaces any text field of that name, and `sid` is extracted from `Name`. */
  function Finish(st: Reading): (r: Result<Submission, string>)
    ensures r.Failure? <==> "Name" !in st.fields
    ensures r.Success? ==> r.value.files == st.files && "files" !in r.value.fields
    ensures r.Success? ==> forall k :: k in st.fields && k != "files" && k != "sid" ==>
      k in r.value.fields && r.value.fields[k] == st.fields[k]
    ensures r.Success? ==> ("sid" in r.value.fields <==> SidOf(st.fields["Name"]).Some? || "sid" in st.fields)
    ensures r.Success? && SidOf(st.fields["Name"]).Some? ==> r.value.fields["sid"] == SidOf(st.fields["Name"]).value
  {
    if "Name" !in st.fields then Failure(NullKey)
    else
      var fields := st.fields - {"files"};
      match SidOf(st.fields["Name"])
      case None => Success(Submission(fields, st.files))
      case Some(sid) => Success(Submission(fields["sid" := sid], st.files))
  }

  /** `readSubmissionFile(text)`. */
  function ReadSubmission(text: string): Result<Submission, string>
  {
    match ReadFrom(Start, Split(text, '\n'))
    case Failure(e) => Failure(e)
    case Success(st) => Finish(st)
  }

  /** `readSubmissionFile`, line by line as the source does it. */
  method ReadSubmissionFile(text: string) returns (r: Result<Submission, string>)
    ensures r == ReadSubmission(text)
  {
    var lines := Split(text, '\n');
    var fields: map<string, string> := map[];
    var files: map<string, string> := map[];
    var lastKey: Option<string> := None;
    var currentFile := Unnamed;
    var i := 0;
    while i < |lines|
      invariant 0 <= i <= |lines|
      invariant ReadFrom(Reading(fields, files, lastKey, currentFile), lines[i..]) == ReadFrom(Start, lines)
    {
      assert lines[i..][1..] == lines[i + 1..];
      var line := lines[i];
      i := i + 1;
      if line == "" {
        continue;
      }
      var pair := SplitFirst(line, KeySep);
      if pair.Some? {
        var key := pair.value.0;
        if key == OriginalFilename {
          currentFile := Escape(pair.value.1);
        } else if key == FilenameKey {
          files := files[currentFile := pair.value.1];
        } else if key !in fields {
          fields := fields[key := pair.value.1];
        }
      } else if ':' in line {
        var parts := Split(line, ':');
        if parts == [] {
          return Failure(IndexError);
        }
        lastKey := Some(parts[0]);
      } else {
        if lastKey.None? {
          return Failure(NullKey);
        }
        var k := lastKey.value;
        if k in fields {
          fields := fields[k := fields[k] + line];
        } else {
          fields := fields[k := line];
        }
      }
    }
    r := Finish(Reading(fields, files, lastKey, currentFile));
  }

  /** The entry filter of `collect`: a `.txt` name with exactly four `_`-separated parts. */
  predicate Accepted(name: string)
  {
    EndsWith(name, ".txt") && |Split(name, '_')| == 4
  }

  /** What one gradebook entry contributes: nothing, a failure, or its sid and data with `root` set. */
  function Collected(name: string, text: string): (r: Result<Option<(string, Submission)>, string>)
    ensures !Accepted(name) ==> r == Success(None)
    ensures r.Success? && r.value.Some? ==> Accepted(name) && "root" in r.value.value.1.fields && r.value.value.1.fields["root"] == "."
  {
    if !Accepted(name) then Success(None)
    else
      match ReadSubmission(text)
      case Failure(e) => Failure(e)
      case Success(sub) =>
        if "sid" !in sub.fields then Failure(NullKey)
        else
          var sid := sub.fields["sid"];
          Success(Some((sid, sub.(fields := sub.fields["root" := "."]))))
  }

  /** The collection loop over the remaining entries; an existing sid keeps its collection. */
  function CollectFrom(acc: map<string, Submission>, entries: seq<(string, string)>): Result<map<string, Submission>, string>
    decreases |entries|
  {
    if entries == [] then Success(acc)
    else
      match Collected(entries[0].0, entries[0].1)
      case Failure(e) => Failure(e)
      case Success(None) => CollectFrom(acc, entries[1..])
      case Success(Some((sid, sub))) =>
        CollectFrom(if sid in acc then acc else acc[sid := sub], entries[1..])
  }

  /** `collect`: the collections by student number (HashMap iteration order is not modelled). */
  method Collect(entries: seq<(string, string)>) returns (r: Result<map<string, Submission>, string>)
    ensures r == CollectFrom(map[], entries)
  {
    var data: map<string, Submission> := map[];
    var i := 0;
    while i < |entries|
      invariant 0 <= i <= |entries|
      invariant CollectFrom(data, entries[i..]) == CollectFrom(map[], entries)
    {
      assert entries[i..][1..] == entries[i + 1..];
      var (name, text) := entries[i];
      i := i + 1;
      if !EndsWith(name, ".txt") || |Split(name, '_')| != 4 {
        continue;
      }
      var sub := ReadSubmissionFile(text);
      if sub.Failure? {
        return Failure(sub.error);
      }
      if "sid" !in sub.value.fields {
        return Failure(NullKey);
      }
      var sid := sub.value.fields["sid"];
      var loaded := sub.value.(fields := sub.value.fields["root" := "."]);
      if sid !in data {
        data := data[sid := loaded];
      }
    }
    return Success(data);
  }

  // Properties of reading a submission file.

  /** The lines that are not empty. */
  function NonEmpty(lines: seq<string>): (r: seq<string>)
    ensures forall k :: 0 <= k < |r| ==> r[k] != ""
    ensures |r| <= |lines|
  {
    if lines == [] then []
    else (if lines[0] == "" then [] else [lines[0]]) + NonEmpty(lines[1..])
  }

  /** Empty lines are ignored: reading the file is reading its non-empty lines. */
  lemma {:induction false} EmptyLinesIgnored(st: Reading, lines: seq<string>)
    ensures ReadFrom(st, lines) == ReadFrom(st, NonEmpty(lines))
    decreases |lines|
  {
    if lines != [] {
      var rest := lines[1..];
      if lines[0] == "" {
        assert NonEmpty(lines) == NonEmpty(rest);
        EmptyLinesIgnored(st, rest);
      } else {
        assert NonEmpty(lines) == [lines[0]] + NonEmpty(rest);
        assert NonEmpty(lines)[1..] == NonEmpty(rest);
        match ReadLine(st, lines[0])
        case Failure(e) =>
        case Success(next) => EmptyLinesIgnored(next, rest);
      }
    }
  }

  /** A `key: value` line splits at its key when the key has no `": "` of its own. */
  lemma RecordSplits(key: string, value: string)
    requires !Contains(key, KeySep)
    ensures SplitFirst(key + KeySep + value, KeySep) == Some((key, value))
  {
    var line := key + KeySep + value;
    assert OccursAt(line, KeySep, |key|);
    assert line[|key|] == ':';
    var r := SplitFirst(line, KeySep);
    var p := r.value.0;
    assert |p| <= |key|;
    if |p| < |key| {
      assert OccursAt(line, KeySep, |p|);
      if |p| + 1 < |key| {
        assert line[|p|..|p| + 2] == key[|p|..|p| + 2];
        assert OccursAt(key, KeySep, |p|);
      }
    }
    assert p == line[..|key|] == key;
    assert r.value.1 == line[|key| + 2..] == value;
  }

  /** Keys other than the two file keys, without a `": "` inside. */
  predicate OrdinaryKey(key: string)
  {
    key != OriginalFilename && key != FilenameKey && !Contains(key, KeySep)
  }

  /** A `key: value` line for a key already present changes nothing: the first occurrence wins. */
  lemma RepeatedKeyIgnored(st: Reading, key: string, value: string)
    requires OrdinaryKey(key) && key in st.fields
    ensures ReadLine(st, key + KeySep + value) == Success(st)
  {
    RecordSplits(key, value);
  }

  /** A `key: value` line for a new key records the value. */
  lemma NewKeyRecorded(st: Reading, key: string, value: string)
    requires OrdinaryKey(key) && key !in st.fields
    ensures ReadLine(st, key + KeySep + value) == Success(st.(fields := st.fields[key := value]))
  {
    RecordSplits(key, value);
  }

  /** The lines of a file made only of `key: value` records. */
  function RecordLines(records: seq<(string, string)>): (r: seq<string>)
    ensures |r| == |records|
    ensures forall k :: 0 <= k < |r| ==> r[k] == records[k].0 + KeySep + records[k].1
  {
    seq(|records|, k requires 0 <= k < |records| => records[k].0 + KeySep + records[k].1)
  }

  /** The index of the first record with the given key. */
  function FirstRecord(records: seq<(string, string)>, key: string): (r: Option<nat>)
    ensures r.Some? ==> r.value < |records| && records[r.value].0 == key
    ensures r.Some? ==> forall k :: 0 <= k < r.value ==> records[k].0 != key
    ensures r.None? ==> forall k :: 0 <= k < |records| ==> records[k].0 != key
  {
    if records == [] then None
    else if records[0].0 == key then Some(0)
    else
      match FirstRecord(records[1..], key)
      case None => None
      case Some(j) => Some(j + 1)
  }

  /**
   * For a file of ordinary `key: value` records, a key ends up with the
   * value it had before, or else the value of its first record, or not at
   * all when no record has it.
   */
  lemma {:induction false} FirstOccurrenceWins(st: Reading, records: seq<(string, string)>, key: string)
    requires forall k :: 0 <= k < |records| ==> OrdinaryKey(records[k].0)
    ensures ReadFrom(st, RecordLines(records)).Success?
    ensures var f := ReadFrom(st, RecordLines(records)).value.fields;
      (key in f <==> key in st.fields || FirstRecord(records, key).Some?) &&
      (key in st.fields ==> f[key] == st.fields[key]) &&
      (key !in st.fields && FirstRecord(records, key).Some? ==> f[key] == records[FirstRecord(records, key).value].1)
    decreases |records|
  {
    ReadRecords(st, records);
    FieldsAfterFirst(st.fields, records, key);
  }

  /** The fields after a run of records: each record's key is added unless already present. */
  function FieldsAfter(fields: map<string, string>, records: seq<(string, string)>): map<string, string>
    decreases |records|
  {
    if records == [] then fields
    else FieldsAfter(if records[0].0 in fields then fields else fields[records[0].0 := records[0].1], records[1..])
  }

  /** Reading a file of ordinary records succeeds and changes only the fields, as FieldsAfter says. */
  lemma {:induction false} ReadRecords(st: Reading, records: seq<(string, string)>)
    requires forall k :: 0 <= k < |records| ==> OrdinaryKey(records[k].0)
    ensures ReadFrom(st, RecordLines(records)) == Success(st.(fields := FieldsAfter(st.fields, records)))
    decreases |records|
  {
    if records != [] {
      ReadRecordStep(st, records);
      ReadRecords(AfterRecord(st, records[0]), records[1..]);
    }
  }

  /** In FieldsAfter, a key keeps its earlier value, or else takes the value of its first record. */
  lemma {:induction false} FieldsAfterFirst(fields: map<string, string>, records: seq<(string, string)>, key: string)
    ensures var f := FieldsAfter(fields, records);
      (key in f <==> key in fields || FirstRecord(records, key).Some?) &&
      (key in fields ==> f[key] == fields[key]) &&
      (key !in fields && FirstRecord(records, key).Some? ==> f[key] == records[FirstRecord(records, key).value].1)
    decreases |records|
  {
    if records != [] {
      FieldsAfterFirst(if records[0].0 in fields then fields else fields[records[0].0 := records[0].1], records[1..], key);
    }
  }

  /** The reading after one `key: value` record: a new key is recorded, a repeated one ignored. */
  function AfterRecord(st: Reading, record: (string, string)): (r: Reading)
    ensures r.fields.Keys == st.fields.Keys + {record.0}
  {
    if record.0 in st.fields then st else st.(fields := st.fields[record.0 := record.1])
  }

  /** Reading a file of records is reading its first record, then the rest. */
  lemma {:induction false} ReadRecordStep(st: Reading, records: seq<(string, string)>)
    requires records != [] && OrdinaryKey(records[0].0)
    ensures ReadFrom(st, RecordLines(records)) == ReadFrom(AfterRecord(st, records[0]), RecordLines(records[1..]))
  {
    var lines := RecordLines(records);
    var (k0, v0) := records[0];
    assert lines[0] == k0 + KeySep + v0;
    assert lines[1..] == RecordLines(records[1..]);
    if k0 in st.fields {
      RepeatedKeyIgnored(st, k0, v0);
    } else {
      NewKeyRecorded(st, k0, v0);
    }
  }

  /** `\tOriginal filename: name` makes the escaped name the current file. */
  lemma {:induction false} OriginalFilenameLine(st: Reading, name: string)
    ensures ReadLine(st, OriginalFilename + KeySep + name) == Success(st.(currentFile := Escape(name)))
  {
    NoColonNoSep(OriginalFilename);
    RecordSplits(OriginalFilename, name);
  }

  /** `\tFilename: path` records the path under the current file. */
  lemma FilenameLine(st: Reading, path: string)
    ensures ReadLine(st, FilenameKey + KeySep + path) == Success(st.(files := st.files[st.currentFile := path]))
  {
    NoColonNoSep(FilenameKey);
    RecordSplits(FilenameKey, path);
  }

  /** `\tOriginal filename` then `\tFilename` records the file's path under its escaped name. */
  lemma {:induction false} FileRecorded(st: Reading, name: string, path: string)
    ensures ReadFrom(st, [OriginalFilename + KeySep + name, FilenameKey + KeySep + path]) ==
      Success(st.(currentFile := Escape(name), files := st.files[Escape(name) := path]))
  {
    var lines := [OriginalFilename + KeySep + name, FilenameKey + KeySep + path];
    var st1 := st.(currentFile := Escape(name));
    OriginalFilenameLine(st, name);
    FilenameLine(st1, path);
    assert lines[1..] == [lines[1]];
    assert ReadFrom(st1, [lines[1]]) == Success(st1.(files := st1.files[st1.currentFile := path]));
  }

  /** Text without `:` holds no `": "`. */
  lemma NoColonNoSep(s: string)
    requires ':' !in s
    ensures !Contains(s, KeySep)
  {
    forall i: nat | i + 2 <= |s|
      ensures !OccursAt(s, KeySep, i)
    {
      assert s[i] != ':';
    }
  }

  /** A `key:` line (no `": "`) makes the text before its first `:` the pending key. */
  lemma KeyLineSetsPending(st: Reading, key: string, rest: string)
    requires key != "" && ':' !in key && !Contains(key + ":" + rest, KeySep)
    ensures ReadLine(st, key + ":" + rest) == Success(st.(pending := Some(key)))
  {
    var line := key + ":" + rest;
    assert line[|key|] == ':';
    var i := FirstIndexOf(line, ':', 0);
    assert forall k :: 0 <= k < |key| ==> line[k] == key[k];
    assert i == |key|;
    var ps := Pieces(line, ':');
    assert ps[0] == line[..i] == key;
    var parts := DropTrailingEmpty(ps);
    assert parts != [] && parts[0] == key;
    ContainsIndexOf(line, KeySep);
  }

  /** A line without `:` is appended, with no separator, to the pending key's value, or starts it. */
  lemma ValueLineAppends(st: Reading, key: string, line: string)
    requires st.pending == Some(key) && ValueLine(line)
    ensures ReadLine(st, line).Success?
    ensures var f := ReadLine(st, line).value.fields;
      f.Keys == st.fields.Keys + {key} &&
      f[key] == (if key in st.fields then st.fields[key] + line else line) &&
      forall k :: k in st.fields && k != key ==> f[k] == st.fields[k]
  {
    NoColonNoSep(line);
  }

  /** A continuation line before any `key:` line dereferences the null key. */
  lemma ValueLineWithoutKey(line: string)
    requires ValueLine(line)
    ensures ReadLine(Start, line) == Failure(NullKey)
  {
    NoColonNoSep(line);
  }

  // Properties of the student number extraction.

  /** `Name: Given Family (sid)`: the sid is found between the first `(` and the last `)`. */
  lemma SidOfName(prefix: string, sid: string, suffix: string)
    requires '(' !in prefix && ')' !in suffix && AllDot(sid)
    ensures SidOf(prefix + "(" + sid + ")" + suffix) == Some(sid)
  {
    var s := prefix + "(" + sid + ")" + suffix;
    var p := |prefix|;
    var q := p + 1 + |sid|;
    assert s[p] == '(' && s[q] == ')';
    assert s[p + 1..q] == sid;
    assert GroupAt(s, p, q);
    assert s[0..p] == prefix;
    forall k | q < k < |s| ensures s[k] != ')' {
      assert s[k] == suffix[k - q - 1];
    }
    var m := MatchAt(s, p);
    assert m == Some(q);
    assert FindFrom(s, p) == Some(sid);
    FindSkips(s, 0, p);
  }

  /** `find` passes over positions without a `(`. */
  lemma {:induction false} FindSkips(s: string, i: nat, p: nat)
    requires i <= p <= |s| && '(' !in s[i..p]
    ensures FindFrom(s, i) == FindFrom(s, p)
    decreases p - i
  {
    if i < p {
      assert s[i] == s[i..p][0];
      assert s[i + 1..p] == s[i..p][1..];
      FindSkips(s, i + 1, p);
    }
  }

  /** A name without `(` yields no sid, so `sid` stays unset. */
  lemma NoParenNoSid(name: string)
    requires '(' !in name
    ensures SidOf(name) == None
  {
  }

  // Properties of `collect`.

  /** `a_b_c_d.txt`-style names with four non-empty `_`-free parts are read. */
  lemma FourPartsAccepted(a: string, b: string, c: string, d: string)
    requires '_' !in a && '_' !in b && '_' !in c && '_' !in d
    requires EndsWith(d, ".txt")
    ensures Accepted(a + "_" + b + "_" + c + "_" + d)
  {
    var xs := [a, b, c, d];
    assert JoinWith([d], '_') == d;
    assert JoinWith([c, d], '_') == c + "_" + d by {
      assert [c, d][1..] == [d];
    }
    assert JoinWith([b, c, d], '_') == b + "_" + c + "_" + d by {
      assert [b, c, d][1..] == [c, d];
    }
    assert JoinWith(xs, '_') == a + "_" + b + "_" + c + "_" + d by {
      assert xs[1..] == [b, c, d];
    }
    SplitJoin(xs, '_');
    var name := a + "_" + b + "_" + c + "_" + d;
    assert name[|name| - |d|..] == d;
    assert name[|name| - 4..] == d[|d| - 4..];
  }

  /** A `.txt` name with only three `_`-separated parts is skipped. */
  lemma ThreePartsSkipped(a: string, b: string, c: string)
    requires '_' !in a && '_' !in b && '_' !in c && c != ""
    ensures !Accepted(a + "_" + b + "_" + c)
  {
    var xs := [a, b, c];
    assert JoinWith([c], '_') == c;
    assert JoinWith([b, c], '_') == b + "_" + c by {
      assert [b, c][1..] == [c];
    }
    assert JoinWith(xs, '_') == a + "_" + b + "_" + c by {
      assert xs[1..] == [b, c];
    }
    SplitJoin(xs, '_');
  }

  /** The entry contributes a collection for sid. */
  predicate ForSid(entry: (string, string), sid: string)
  {
    var c := Collected(entry.0, entry.1);
    c.Success? && c.value.Some? && c.value.value.0 == sid
  }

  /** The first position holding `true`. */
  function FirstTrue(bs: seq<bool>): (r: Option<nat>)
    ensures r.Some? ==> r.value < |bs| && bs[r.value]
    ensures r.Some? ==> forall k :: 0 <= k < r.value ==> !bs[k]
    ensures r.None? ==> forall k :: 0 <= k < |bs| ==> !bs[k]
  {
    if bs == [] then None
    else if bs[0] then Some(0)
    else
      match FirstTrue(bs[1..])
      case None => None
      case Some(j) => Some(j + 1)
  }

  /** For each entry, whether it contributes a collection for sid. */
  function SidFlags(entries: seq<(string, string)>, sid: string): (bs: seq<bool>)
    ensures |bs| == |entries|
  {
    seq(|entries|, k requires 0 <= k < |entries| => ForSid(entries[k], sid))
  }

  /** The first entry that contributes a collection for sid. */
  function FirstFor(entries: seq<(string, string)>, sid: string): (r: Option<nat>)
    ensures r.Some? ==> r.value < |entries| && ForSid(entries[r.value], sid)
    ensures r.Some? ==> forall k {:trigger ForSid(entries[k], sid)} :: 0 <= k < r.value ==> !ForSid(entries[k], sid)
    ensures r.None? ==> forall k {:trigger ForSid(entries[k], sid)} :: 0 <= k < |entries| ==> !ForSid(entries[k], sid)
  {
    var bs := SidFlags(entries, sid);
    var r := FirstTrue(bs);
    assert forall k :: 0 <= k < |entries| ==> bs[k] == ForSid(entries[k], sid);
    r
  }

  /** The search for sid past an entry that does not contribute it. */
  lemma {:induction false} FirstForStep(entries: seq<(string, string)>, sid: string)
    requires entries != [] && !ForSid(entries[0], sid)
    ensures FirstFor(entries, sid) ==
      match FirstFor(entries[1..], sid)
      case None => None
      case Some(j) => Some(j + 1)
  {
    var bs := SidFlags(entries, sid);
    assert bs[1..] == SidFlags(entries[1..], sid);
  }

  /** An entry that contributes sid is the first for it when it comes first. */
  lemma {:induction false} FirstForHead(entries: seq<(string, string)>, sid: string)
    requires entries != [] && ForSid(entries[0], sid)
    ensures FirstFor(entries, sid) == Some(0)
  {
  }

  /** The collections after one successfully collected entry. */
  function AfterEntry(acc: map<string, Submission>, entry: (string, string)): map<string, Submission>
  {
    var c := Collected(entry.0, entry.1);
    if c.Success? && c.value.Some? && c.value.value.0 !in acc then acc[c.value.value.0 := c.value.value.1] else acc
  }

  lemma {:induction false} CollectStep(acc: map<string, Submission>, entries: seq<(string, string)>)
    requires entries != [] && CollectFrom(acc, entries).Success?
    ensures Collected(entries[0].0, entries[0].1).Success?
    ensures CollectFrom(acc, entries) == CollectFrom(AfterEntry(acc, entries[0]), entries[1..])
  {
  }

  /**
   * Entries with the same sid share one collection: the one created by the
   * first entry for that sid; later entries for it add nothing.
   */
  lemma {:induction false} SharedCollection(acc: map<string, Submission>, entries: seq<(string, string)>, sid: string)
    requires CollectFrom(acc, entries).Success?
    ensures var m := CollectFrom(acc, entries).value;
      (sid in m <==> sid in acc || FirstFor(entries, sid).Some?) &&
      (sid in acc ==> m[sid] == acc[sid]) &&
      (sid !in acc && FirstFor(entries, sid).Some? ==>
        m[sid] == Collected(entries[FirstFor(entries, sid).value].0, entries[FirstFor(entries, sid).value].1).value.value.1)
  {
    CollectedSids(acc, entries, sid);
    if sid !in acc && FirstFor(entries, sid).Some? {
      FirstCollected(acc, entries, sid);
    }
  }

  /** Which sids are collected, and that existing collections are kept. */
  lemma {:induction false} CollectedSids(acc: map<string, Submission>, entries: seq<(string, string)>, sid: string)
    requires CollectFrom(acc, entries).Success?
    ensures var m := CollectFrom(acc, entries).value;
      (sid in m <==> sid in acc || FirstFor(entries, sid).Some?) &&
      (sid in acc ==> m[sid] == acc[sid])
    decreases |entries|
  {
    if entries != [] {
      CollectStep(acc, entries);
      var next := AfterEntry(acc, entries[0]);
      CollectedSids(next, entries[1..], sid);
      if ForSid(entries[0], sid) {
        FirstForHead(entries, sid);
      } else {
        assert sid in next <==> sid in acc;
        assert sid in acc ==> next[sid] == acc[sid];
        FirstForStep(entries, sid);
      }
    }
  }

  /** A sid not collected before gets the collection of its first entry. */
  lemma {:induction false} FirstCollected(acc: map<string, Submission>, entries: seq<(string, string)>, sid: string)
    requires CollectFrom(acc, entries).Success? && sid !in acc && FirstFor(entries, sid).Some?
    ensures var m := CollectFrom(acc, entries).value; var i := FirstFor(entries, sid).value;
      sid in m && m[sid] == Collected(entries[i].0, entries[i].1).value.value.1
    decreases |entries|
  {
    var rest := entries[1..];
    CollectStep(acc, entries);
    var next := AfterEntry(acc, entries[0]);
    if ForSid(entries[0], sid) {
      FirstForHead(entries, sid);
      assert next[sid] == Collected(entries[0].0, entries[0].1).value.value.1;
      CollectedSids(next, rest, sid);
    } else {
      assert sid !in next;
      FirstForStep(entries, sid);
      FirstCollected(next, rest, sid);
      assert entries[FirstFor(rest, sid).value + 1] == rest[FirstFor(rest, sid).value];
    }
  }
}
