/**
 * The tutor allocation processor. A CSV file of `sid,tutor` lines is read
 * into a map (later lines override earlier ones), and every submission's
 * results get a `marker` entry: its allocated tutor, or "nobody".
 *
 * Whether the file exists and its lines are inputs (None for a missing
 * file). A line with fewer than two comma-separated fields raises an
 * ArrayIndexOutOfBoundsException, here `Failure`; a submission without a
 * `sid` raises a NullPointerException, also `Failure`.
 */
module Allocation {
  import opened Wrappers
  import opened JavaText
  import opened Results

  const Nobody: string := "nobody"
  const IndexError: string := "ArrayIndexOutOfBoundsException"
  const NullSid: string := "NullPointerException"

  /** One CSV line: its first two comma-separated fields, trimmed. */
  function ParseLine(line: string): (r: Result<(string, string), string>)
    ensures r.Success? <==> |Split(line, ',')| >= 2
    ensures r.Success? ==> r.value == (Trim(Split(line, ',')[0]), Trim(Split(line, ',')[1]))
  {
    var parts := Split(line, ',');
    if |parts| < 2 then Failure(IndexError) else Success((Trim(parts[0]), Trim(parts[1])))
  }

  /** The loading loop from the given map on. */
  function AllocationsFrom(acc: map<string, string>, lines: seq<string>): Result<map<string, string>, string>
    decreases |lines|
  {
    if lines == [] then Success(acc)
    else
      match ParseLine(lines[0])
      case Failure(e) => Failure(e)
      case Success(pair) => AllocationsFrom(acc[pair.0 := pair.1], lines[1..])
  }

  /** Whether a line allocates the student sid. */
  predicate AllocatesLine(line: string, sid: string)
  {
    ParseLine(line).Success? && ParseLine(line).value.0 == sid
  }

  /** The last position below n holding `true`. */
  function LastTrue(bs: seq<bool>, n: nat): (r: Option<nat>)
    requires n <= |bs|
    ensures r.Some? ==> r.value < n && bs[r.value]
    ensures r.Some? ==> forall k :: r.value < k < n ==> !bs[k]
    ensures r.None? ==> forall k :: 0 <= k < n ==> !bs[k]
  {
    if n == 0 then None
    else if bs[n - 1] then Some(n - 1)
    else LastTrue(bs, n - 1)
  }

  /** The last `true` below n, found from the second position on. */
  lemma {:induction false} LastTrueStep(bs: seq<bool>, n: nat)
    requires 0 < n <= |bs|
    ensures LastTrue(bs, n) ==
      match LastTrue(bs[1..], n - 1)
      case Some(j) => Some(j + 1)
      case None => if bs[0] then Some(0) else None
  {
    if n > 1 {
      assert bs[1..][n - 2] == bs[n - 1];
      if !bs[n - 1] {
        LastTrueStep(bs, n - 1);
      }
    }
  }

  /** For each line, whether it allocates sid. */
  function AllocFlags(lines: seq<string>, sid: string): (bs: seq<bool>)
    ensures |bs| == |lines|
  {
    seq(|lines|, k requires 0 <= k < |lines| => AllocatesLine(lines[k], sid))
  }

  /** The last line allocating sid. */
  function LastFor(lines: seq<string>, sid: string): (r: Option<nat>)
    ensures r.Some? ==> r.value < |lines| && AllocatesLine(lines[r.value], sid)
    ensures r.Some? ==> forall k {:trigger AllocatesLine(lines[k], sid)} :: r.value < k < |lines| ==> !AllocatesLine(lines[k], sid)
    ensures r.None? ==> forall k {:trigger AllocatesLine(lines[k], sid)} :: 0 <= k < |lines| ==> !AllocatesLine(lines[k], sid)
  {
    var bs := AllocFlags(lines, sid);
    assert forall k :: 0 <= k < |lines| ==> bs[k] == AllocatesLine(lines[k], sid);
    LastTrue(bs, |lines|)
  }

  /** The last line for sid, found from the second line on. */
  lemma {:induction false} LastForStep(lines: seq<string>, sid: string)
    requires lines != []
    ensures LastFor(lines, sid) ==
      match LastFor(lines[1..], sid)
      case Some(j) => Some(j + 1)
      case None => if AllocatesLine(lines[0], sid) then Some(0) else None
  {
    var bs := AllocFlags(lines, sid);
    assert bs[1..] == AllocFlags(lines[1..], sid);
    LastTrueStep(bs, |lines|);
  }

  /** `allocations.getOrDefault(sid, "nobody")`. */
  function Marker(allocations: map<string, string>, sid: string): (r: string)
    ensures sid !in allocations ==> r == Nobody
    ensures sid in allocations ==> r == allocations[sid]
  {
    if sid in allocations then allocations[sid] else Nobody
  }

  /** The results after `allocate`, or the NullPointerException of a missing sid. */
  function Allocated(allocations: map<string, string>, entries: map<string, Value>): (r: Result<map<string, Value>, string>)
    ensures r.Success? <==> "sid" in entries
    ensures r.Success? ==> r.value.Keys == entries.Keys + {"marker"}
    ensures r.Success? ==> forall k :: k in entries && k != "marker" ==> r.value[k] == entries[k]
    ensures r.Success? ==> r.value["marker"] == TextValue(Marker(allocations, Text(entries["sid"])))
  {
    if "sid" !in entries then Failure(NullSid)
    else Success(entries["marker" := TextValue(Marker(allocations, Text(entries["sid"])))])
  }

  class Allocate {
    var allocations: map<string, string>

    constructor()
      ensures allocations == map[]
    {
      allocations := map[];
    }

    /**
     * `loadAllocations`: a missing file leaves the map as it is; otherwise
     * each line is put in turn. After a failing line the processor is
     * abandoned, so the map is left unspecified.
     */
    method LoadAllocations(file: Option<seq<string>>) returns (error: Option<string>)
      modifies this
      ensures file.None? ==> error.None? && allocations == old(allocations)
      ensures file.Some? ==> (error.None? <==> AllocationsFrom(old(allocations), file.value).Success?)
      ensures file.Some? && error.Some? ==> error.value == AllocationsFrom(old(allocations), file.value).error
      ensures file.Some? && error.None? ==> allocations == AllocationsFrom(old(allocations), file.value).value
    {
      if file.None? {
        return None;
      }
      var lines := file.value;
      var i := 0;
      while i < |lines|
        invariant 0 <= i <= |lines|
        invariant AllocationsFrom(allocations, lines[i..]) == AllocationsFrom(old(allocations), lines)
      {
        assert lines[i..][1..] == lines[i + 1..];
        var parts := Split(lines[i], ',');
        if |parts| < 2 {
          return Some(IndexError);
        }
        allocations := allocations[Trim(parts[0]) := Trim(parts[1])];
        i := i + 1;
      }
      return None;
    }

    /** `allocate(collection)`: only `marker` is written. */
    method AllocateMarker(data: Data) returns (error: Option<string>)
      modifies data
      ensures error.None? <==> Allocated(allocations, old(data.entries)).Success?
      ensures error.None? ==> data.entries == Allocated(allocations, old(data.entries)).value
      ensures error.Some? ==> data.entries == old(data.entries)
    {
      if "sid" !in data.entries {
        return Some(NullSid);
      }
      var sid := Text(data.entries["sid"]);
      data.Set("marker", TextValue(Marker(allocations, sid)));
      return None;
    }
  }

  /**
   * After loading, a student is allocated exactly when some line names
   * them, and then to the tutor on the last such line.
   */
  lemma {:induction false} AllocationOf(acc: map<string, string>, lines: seq<string>, sid: string)
    requires AllocationsFrom(acc, lines).Success?
    decreases |lines|
    ensures var m := AllocationsFrom(acc, lines).value;
      (sid in m <==> sid in acc || LastFor(lines, sid).Some?) &&
      (LastFor(lines, sid).Some? ==> m[sid] == ParseLine(lines[LastFor(lines, sid).value]).value.1) &&
      (LastFor(lines, sid).None? && sid in acc ==> m[sid] == acc[sid])
  {
    AllocatedSids(acc, lines, sid);
    if LastFor(lines, sid).Some? {
      LastAllocation(acc, lines, sid);
    }
  }

  /** The loading loop past its first line. */
  lemma {:induction false} AllocationsStep(acc: map<string, string>, lines: seq<string>)
    requires lines != [] && AllocationsFrom(acc, lines).Success?
    ensures ParseLine(lines[0]).Success?
    ensures var pair := ParseLine(lines[0]).value;
      AllocationsFrom(acc, lines) == AllocationsFrom(acc[pair.0 := pair.1], lines[1..])
  {
  }

  /** Which students are allocated, and that earlier allocations survive lines not naming them. */
  lemma {:induction false} AllocatedSids(acc: map<string, string>, lines: seq<string>, sid: string)
    requires AllocationsFrom(acc, lines).Success?
    ensures var m := AllocationsFrom(acc, lines).value;
      (sid in m <==> sid in acc || LastFor(lines, sid).Some?) &&
      (LastFor(lines, sid).None? && sid in acc ==> m[sid] == acc[sid])
    decreases |lines|
  {
    if lines != [] {
      AllocationsStep(acc, lines);
      var pair := ParseLine(lines[0]).value;
      var next := acc[pair.0 := pair.1];
      AllocatedSids(next, lines[1..], sid);
      LastForStep(lines, sid);
      assert AllocatesLine(lines[0], sid) <==> pair.0 == sid;
    }
  }

  /** The tutor of an allocated student comes from the last line naming them. */
  lemma {:induction false} LastAllocation(acc: map<string, string>, lines: seq<string>, sid: string)
    requires AllocationsFrom(acc, lines).Success? && LastFor(lines, sid).Some?
    ensures var m := AllocationsFrom(acc, lines).value;
      sid in m && m[sid] == ParseLine(lines[LastFor(lines, sid).value]).value.1
    decreases |lines|
  {
    AllocationsStep(acc, lines);
    var pair := ParseLine(lines[0]).value;
    var next := acc[pair.0 := pair.1];
    var rest := lines[1..];
    LastForStep(lines, sid);
    assert AllocatesLine(lines[0], sid) <==> pair.0 == sid;
    match LastFor(rest, sid)
    case Some(j) =>
      LastAllocation(next, rest, sid);
      assert rest[j] == lines[j + 1];
    case None =>
      assert LastFor(lines, sid) == Some(0) && pair.0 == sid;
      AllocatedSids(next, rest, sid);
  }

  /** The marker a loaded allocation file gives a student: the last line's tutor, or "nobody". */
  lemma {:induction false} MarkerAfterLoading(lines: seq<string>, sid: string)
    requires AllocationsFrom(map[], lines).Success?
    ensures var m := Marker(AllocationsFrom(map[], lines).value, sid);
      match LastFor(lines, sid)
      case Some(j) => m == ParseLine(lines[j]).value.1
      case None => m == Nobody
  {
    AllocationOf(map[], lines, sid);
  }

  /** A line without a comma has a single field, so loading fails on it. */
  lemma LineWithoutComma(line: string)
    requires ',' !in line
    ensures ParseLine(line).Failure?
  {
  }

  /** `sid,tutor` with a non-empty tutor parses to the two trimmed fields. */
  lemma ParseTwoFields(sid: string, tutor: string)
    requires ',' !in sid && ',' !in tutor && tutor != ""
    ensures ParseLine(sid + "," + tutor) == Success((Trim(sid), Trim(tutor)))
  {
    var line := sid + "," + tutor;
    assert line[|sid|] == ',';
    assert ',' in line;
    var i := FirstIndexOf(line, ',', 0);
    assert forall k :: 0 <= k < |sid| ==> line[k] == sid[k];
    assert i == |sid|;
    assert line[..i] == sid && line[i + 1..] == tutor;
    var j := FirstIndexOf(tutor, ',', 0);
    assert j == |tutor|;
    assert Pieces(line, ',') == [sid, tutor];
  }
}
