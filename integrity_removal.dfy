/**
 * The integrity-case processor. A file lists student numbers, one per
 * line; every submission whose `sid` is listed gets `integrity` set to
 * true. Nothing else is written, and `integrity` is never set to false.
 *
 * The file's lines are an input (None when reading fails, which sets the
 * processor's error flag). A `sid` stored as something other than a
 * string raises a ClassCastException, here `Failure`.
 */
module Integrity {
  import opened Wrappers
  import opened JavaText
  import opened Results

  const CastError: string := "ClassCastException"

  /** Each line trimmed, in file order. */
  function TrimAll(lines: seq<string>): (r: seq<string>)
    ensures |r| == |lines|
    ensures forall i :: 0 <= i < |lines| ==> r[i] == Trim(lines[i])
  {
    seq(|lines|, i requires 0 <= i < |lines| => Trim(lines[i]))
  }

  /** Whether `setFlag` marks a submission whose `sid` entry is `sid` (None when absent). */
  function Flagged(students: seq<string>, sid: Option<Value>): (r: Result<bool, string>)
    ensures r.Failure? <==> sid.Some? && !sid.value.TextValue?
    ensures r == Success(true) <==> sid.Some? && sid.value.TextValue? && sid.value.s in students
  {
    match sid
    case None => Success(false)
    case Some(TextValue(s)) => Success(s in students)
    case Some(_) => Failure(CastError)
  }

  class IntegrityRemoval {
    var hasError: bool
    var students: seq<string>

    constructor()
      ensures !hasError && students == []
    {
      hasError := false;
      students := [];
    }

    /** `loadList`: the trimmed lines are appended, or a read failure sets the error flag. */
    method LoadList(contents: Option<seq<string>>)
      modifies this
      ensures contents.None? ==> hasError && students == old(students)
      ensures contents.Some? ==> hasError == old(hasError) && students == old(students) + TrimAll(contents.value)
    {
      if contents.None? {
        hasError := true;
        return;
      }
      var lines := contents.value;
      for i := 0 to |lines|
        invariant hasError == old(hasError)
        invariant students == old(students) + TrimAll(lines[..i])
      {
        assert TrimAll(lines[..i + 1]) == TrimAll(lines[..i]) + [Trim(lines[i])];
        students := students + [Trim(lines[i])];
      }
      assert lines[..|lines|] == lines;
    }

    /** `setFlag(submission)`: `integrity` becomes true for a listed sid; nothing else changes. */
    method SetFlag(data: Data) returns (error: Option<string>)
      modifies data
      ensures var f := Flagged(students, data.Get("sid"));
        (error.Some? <==> f.Failure?) && (error.Some? ==> error.value == f.error)
      ensures var f := old(Flagged(students, data.Get("sid")));
        data.entries == if f == Success(true) then old(data.entries)["integrity" := BoolValue(true)] else old(data.entries)
    {
      var sid := data.Get("sid");
      if sid.Some? && !sid.value.TextValue? {
        return Some(CastError);
      }
      if sid.Some? && sid.value.s in students {
        data.Set("integrity", BoolValue(true));
      }
      return None;
    }
  }

  /** After loading a list into an empty processor, a sid is flagged exactly when some line trims to it. */
  lemma FlaggedIffListed(lines: seq<string>, sid: string)
    ensures Flagged(TrimAll(lines), Some(TextValue(sid))) == Success(true) <==>
      exists i :: 0 <= i < |lines| && Trim(lines[i]) == sid
  {
    var t := TrimAll(lines);
    if sid in t {
      var i :| 0 <= i < |t| && t[i] == sid;
      assert Trim(lines[i]) == sid;
    }
  }

  /** With an unreadable list nothing was loaded, so nobody is flagged. */
  lemma UnreadableFlagsNobody(sid: Option<Value>)
    ensures Flagged([], sid) != Success(true)
  {
  }

  /** Trimming makes the list insensitive to surrounding blanks on either side. */
  lemma PaddedLineListed(lines: seq<string>, i: nat, sid: string)
    requires i < |lines| && lines[i] == " " + sid + "\t" && Trim(sid) == sid
    ensures Flagged(TrimAll(lines), Some(TextValue(sid))) == Success(true)
  {
    var s := lines[i];
    assert s[0] == ' ' && s[|s| - 1] == '\t';
    var k := SkipBlanks(s, 0);
    if sid == [] {
      assert Trim(s) == [];
    } else {
      assert sid[0] > ' ' && sid[|sid| - 1] > ' ';
      assert s[1] == sid[0];
      assert k == 1;
      assert s[|s| - 2] == sid[|sid| - 1];
      assert BackBlanks(s, 1, |s|) == |s| - 1;
      assert s[1..|s| - 1] == sid;
    }
    assert TrimAll(lines)[i] == sid;
  }
}
