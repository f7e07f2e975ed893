/**
 * The few pieces of java.lang.String, java.util.regex and java.io that the
 * ChalkBox core relies on, written out with the JDK's edge cases:
 * `split` with a literal separator (limit 0 and limit 2), `trim`,
 * `BufferedReader.readLine` line breaking, `Integer.parseInt`,
 * `equalsIgnoreCase` against ASCII words, `List.toString` and the
 * `.` to `\.` escaping used for result keys.
 */
module JavaText {
  import opened Wrappers

  /** System.lineSeparator(); the model fixes the Unix separator. */
  const LineSeparator: string := "\n"

  /** n blanks, as built by the indentation helpers of the comparators. */
  function Spaces(n: nat): (r: string)
    ensures |r| == n
    ensures forall i :: 0 <= i < n ==> r[i] == ' '
  {
    if n == 0 then "" else Spaces(n - 1) + " "
  }

  predicate StartsWith(s: string, prefix: string)
  {
    |prefix| <= |s| && s[..|prefix|] == prefix
  }

  predicate EndsWith(s: string, suffix: string)
  {
    |suffix| <= |s| && s[|s| - |suffix|..] == suffix
  }

  /** t occurs in s starting at index i. */
  predicate OccursAt(s: string, t: string, i: nat)
  {
    i + |t| <= |s| && s[i..i + |t|] == t
  }

  /** String.contains. */
  predicate Contains(s: string, t: string)
  {
    exists i: nat | i <= |s| :: OccursAt(s, t, i)
  }

  /** String.indexOf(t, from): the first occurrence of t at or after from. */
  function IndexOf(s: string, t: string, from: nat): (r: Option<nat>)
    ensures r.Some? ==> from <= r.value && OccursAt(s, t, r.value)
    ensures r.Some? ==> forall j: nat :: from <= j < r.value ==> !OccursAt(s, t, j)
    ensures r.None? ==> forall j: nat :: from <= j ==> !OccursAt(s, t, j)
    decreases |s| - from
  {
    if from + |t| > |s| then None
    else if s[from..from + |t|] == t then Some(from)
    else IndexOf(s, t, from + 1)
  }

  lemma {:induction false} ContainsIndexOf(s: string, t: string)
    ensures Contains(s, t) <==> IndexOf(s, t, 0).Some?
  {
    if Contains(s, t) {
      var i: nat :| i <= |s| && OccursAt(s, t, i);
    }
  }

  /**
   * `s.split(sep, 2)` for a literal separator: the text before the first
   * occurrence of sep and everything after it, or None when sep does not
   * occur (Java then returns the one-element array [s]).
   */
  function SplitFirst(s: string, sep: string): (r: Option<(string, string)>)
    requires sep != []
    ensures r.None? <==> !Contains(s, sep)
    ensures r.Some? ==> s == r.value.0 + sep + r.value.1
    ensures r.Some? ==> forall j: nat :: j < |r.value.0| ==> !OccursAt(s, sep, j)
  {
    ContainsIndexOf(s, sep);
    match IndexOf(s, sep, 0)
    case None => None
    case Some(i) =>
      assert s == s[..i] + sep + s[i + |sep|..] by {
        assert s[i..i + |sep|] == sep;
        assert s == s[..i] + s[i..i + |sep|] + s[i + |sep|..];
      }
      Some((s[..i], s[i + |sep|..]))
  }

  /** A separator character absent from a is split at right after a. */
  lemma SplitAtFirstSep(a: string, b: string, c: char)
    requires c !in a
    ensures SplitFirst(a + [c] + b, [c]) == Some((a, b))
  {
    var s := a + [c] + b;
    assert OccursAt(s, [c], |a|);
    var r := SplitFirst(s, [c]);
    var p := r.value.0;
    assert |p| <= |a|;
    assert s[|p|] == c;
    assert p == s[..|a|] == a;
    assert r.value.1 == s[|a| + 1..] == b;
  }

  /** Index of the first c in s at or after i, or |s|. */
  function FirstIndexOf(s: string, c: char, i: nat): (r: nat)
    requires i <= |s|
    ensures i <= r <= |s|
    ensures r < |s| ==> s[r] == c
    ensures forall j :: i <= j < r ==> s[j] != c
    decreases |s| - i
  {
    if i == |s| || s[i] == c then i else FirstIndexOf(s, c, i + 1)
  }

  /** Every segment of s between occurrences of c, empty ones included. */
  function Pieces(s: string, c: char): (r: seq<string>)
    ensures |r| >= 1
    ensures forall k :: 0 <= k < |r| ==> c !in r[k]
    decreases |s|
  {
    var i := FirstIndexOf(s, c, 0);
    if i == |s| then [s] else [s[..i]] + Pieces(s[i + 1..], c)
  }

  /** The segments joined back with c between them. */
  function JoinWith(xs: seq<string>, c: char): string
  {
    if xs == [] then ""
    else if |xs| == 1 then xs[0]
    else xs[0] + [c] + JoinWith(xs[1..], c)
  }

  function DropTrailingEmpty(xs: seq<string>): (r: seq<string>)
    ensures |r| <= |xs| && r == xs[..|r|]
    ensures r == [] || r[|r| - 1] != ""
    ensures forall k :: |r| <= k < |xs| ==> xs[k] == ""
  {
    if xs != [] && xs[|xs| - 1] == "" then DropTrailingEmpty(xs[..|xs| - 1]) else xs
  }

  /**
   * `s.split(c)` for a one-character literal regex (limit 0): the input
   * itself when c does not occur, otherwise the segments with the trailing
   * empty ones removed.
   */
  function Split(s: string, c: char): (r: seq<string>)
  {
    if c !in s then [s] else DropTrailingEmpty(Pieces(s, c))
  }

  lemma {:induction false} PiecesJoin(s: string, c: char)
    ensures JoinWith(Pieces(s, c), c) == s
    decreases |s|
  {
    var i := FirstIndexOf(s, c, 0);
    if i < |s| {
      PiecesJoin(s[i + 1..], c);
      assert s == s[..i] + [c] + s[i + 1..];
    }
  }

  /** Segments free of c, joined with c, split back into the same segments. */
  lemma {:induction false} PiecesOfJoin(xs: seq<string>, c: char)
    requires xs != [] && forall k :: 0 <= k < |xs| ==> c !in xs[k]
    ensures Pieces(JoinWith(xs, c), c) == xs
    decreases |xs|
  {
    var s := JoinWith(xs, c);
    var i := FirstIndexOf(s, c, 0);
    if |xs| == 1 {
      assert i == |s|;
    } else {
      var head := xs[0];
      assert s == head + [c] + JoinWith(xs[1..], c);
      assert s[|head|] == c;
      assert forall k :: 0 <= k < |head| ==> s[k] == head[k];
      assert i == |head|;
      assert s[..i] == head;
      assert s[i + 1..] == JoinWith(xs[1..], c);
      PiecesOfJoin(xs[1..], c);
      assert xs == [head] + xs[1..];
    }
  }

  /** `split` undoes a join of two or more c-free segments whose last one is non-empty. */
  lemma {:induction false} SplitJoin(xs: seq<string>, c: char)
    requires |xs| >= 2 && xs[|xs| - 1] != ""
    requires forall k :: 0 <= k < |xs| ==> c !in xs[k]
    ensures Split(JoinWith(xs, c), c) == xs
  {
    var s := JoinWith(xs, c);
    assert s == xs[0] + [c] + JoinWith(xs[1..], c);
    assert s[|xs[0]|] == c;
    PiecesOfJoin(xs, c);
  }

  /** First index at or after i holding a character above U+0020, or |s|. */
  function SkipBlanks(s: string, i: nat): (r: nat)
    requires i <= |s|
    ensures i <= r <= |s|
    ensures r < |s| ==> s[r] > ' '
    ensures forall k :: i <= k < r ==> s[k] <= ' '
    decreases |s| - i
  {
    if i == |s| || s[i] > ' ' then i else SkipBlanks(s, i + 1)
  }

  /** Index just past the last character above U+0020 in s[lo..j], or lo. */
  function BackBlanks(s: string, lo: nat, j: nat): (r: nat)
    requires lo <= j <= |s|
    ensures lo <= r <= j
    ensures r > lo ==> s[r - 1] > ' '
    ensures forall k :: r <= k < j ==> s[k] <= ' '
    decreases j
  {
    if j == lo || s[j - 1] > ' ' then j else BackBlanks(s, lo, j - 1)
  }

  /** Java `trim`: strip every leading and trailing character at or below U+0020. */
  function Trim(s: string): (r: string)
    ensures exists i :: Trimmed(s, i, r)
    ensures r == [] || (r[0] > ' ' && r[|r| - 1] > ' ')
  {
    var i := SkipBlanks(s, 0);
    var j := BackBlanks(s, i, |s|);
    assert Trimmed(s, i, s[i..j]);
    s[i..j]
  }

  /** r is s with i blanks removed in front and only blanks removed behind. */
  predicate Trimmed(s: string, i: int, r: string)
  {
    0 <= i <= |s| - |r| && r == s[i..i + |r|] &&
    (forall k :: 0 <= k < i ==> s[k] <= ' ') && (forall k :: i + |r| <= k < |s| ==> s[k] <= ' ')
  }

  /** The line terminators recognised by BufferedReader.readLine. */
  predicate IsLineBreak(c: char)
  {
    c == '\n' || c == '\r'
  }

  predicate NoLineBreak(s: string)
  {
    forall k :: 0 <= k < |s| ==> !IsLineBreak(s[k])
  }

  /** First line terminator at or after i, or |s|. */
  function LineEnd(s: string, i: nat): (r: nat)
    requires i <= |s|
    ensures i <= r <= |s|
    ensures r < |s| ==> IsLineBreak(s[r])
    ensures forall j :: i <= j < r ==> !IsLineBreak(s[j])
    decreases |s| - i
  {
    if i == |s| || IsLineBreak(s[i]) then i else LineEnd(s, i + 1)
  }

  /**
   * The lines successive `readLine` calls return: a line ends at "\n", "\r"
   * or "\r\n"; a last line without terminator still counts, and no line
   * follows a final terminator.
   */
  function ReadLines(s: string): (r: seq<string>)
    ensures forall k :: 0 <= k < |r| ==> NoLineBreak(r[k])
    ensures s == [] <==> r == []
    decreases |s|
  {
    if s == [] then []
    else
      var e := LineEnd(s, 0);
      if e == |s| then [s]
      else if s[e] == '\r' && e + 1 < |s| && s[e + 1] == '\n' then [s[..e]] + ReadLines(s[e + 2..])
      else [s[..e]] + ReadLines(s[e + 1..])
  }

  /** Lines written one after another, each followed by a newline. */
  function JoinLines(lines: seq<string>): string
  {
    if lines == [] then "" else lines[0] + "\n" + JoinLines(lines[1..])
  }

  /** Writing one more line appends it and its newline. */
  lemma {:induction false} JoinLinesSnoc(lines: seq<string>, line: string)
    ensures JoinLines(lines + [line]) == JoinLines(lines) + line + "\n"
    decreases |lines|
  {
    if lines == [] {
      assert [line][1..] == [];
    } else {
      assert (lines + [line])[1..] == lines[1..] + [line];
      JoinLinesSnoc(lines[1..], line);
    }
  }

  /** Reading back lines written with newlines yields exactly those lines. */
  lemma {:induction false} ReadJoinedLines(lines: seq<string>)
    requires forall k :: 0 <= k < |lines| ==> NoLineBreak(lines[k])
    ensures ReadLines(JoinLines(lines)) == lines
  {
    if lines != [] {
      var l := lines[0];
      var rest := JoinLines(lines[1..]);
      var s := JoinLines(lines);
      assert s == l + "\n" + rest;
      assert s[|l|] == '\n';
      assert forall j :: 0 <= j < |l| ==> s[j] == l[j];
      var e := LineEnd(s, 0);
      assert e == |l|;
      assert s[..e] == l;
      assert s[e + 1..] == rest;
      ReadJoinedLines(lines[1..]);
    }
  }

  /** The characters the regex `.` matches: all but the line terminators. */
  predicate DotChar(c: char)
  {
    c != '\n' && c != '\r' && c != '\U{85}' && c != '\U{2028}' && c != '\U{2029}'
  }

  /** Every character of s matches `.`. */
  predicate AllDot(s: string)
  {
    forall k :: 0 <= k < |s| ==> DotChar(s[k])
  }

  predicate IsDigit(c: char)
  {
    '0' <= c <= '9'
  }

  predicate AllDigits(s: string)
  {
    forall k :: 0 <= k < |s| ==> IsDigit(s[k])
  }

  function DigitValue(c: char): nat
    requires IsDigit(c)
  {
    (c - '0') as nat
  }

  function DigitsValue(ds: string): nat
    requires AllDigits(ds)
  {
    if ds == [] then 0 else DigitsValue(ds[..|ds| - 1]) * 10 + DigitValue(ds[|ds| - 1])
  }

  const IntMin: int := -0x8000_0000
  const IntMax: int := 0x7fff_ffff

  predicate InInt32(v: int)
  {
    IntMin <= v <= IntMax
  }

  /**
   * Integer.parseInt / Integer.valueOf in radix 10 over ASCII digits: an
   * optional sign, at least one digit, and a value within 32 bits;
   * anything else is a NumberFormatException, here None.
   */
  function ParseInt(s: string): (r: Option<int>)
    ensures r.Some? ==> InInt32(r.value)
    ensures r.Some? ==> s != [] && (IsDigit(s[0]) || s[0] == '-' || s[0] == '+')
    ensures r.Some? ==> SignedBody(s) != [] && AllDigits(SignedBody(s))
    ensures r.Some? ==> r.value == SignedValue(s)
    ensures r.Some? <==> s != [] && SignedBody(s) != [] && AllDigits(SignedBody(s)) && InInt32(SignedValue(s))
  {
    if s == [] then None
    else
      var body := SignedBody(s);
      if body == [] || !AllDigits(body) then None
      else
        var v := SignedValue(s);
        if InInt32(v) then Some(v) else None
  }

  /** The value of an optional sign followed by digits. */
  function SignedValue(s: string): int
    requires s != [] && AllDigits(SignedBody(s))
  {
    if s[0] == '-' then -(DigitsValue(SignedBody(s)) as int) else DigitsValue(SignedBody(s)) as int
  }

  /** The digits after an optional leading sign. */
  function SignedBody(s: string): string
    requires s != []
  {
    if s[0] == '-' || s[0] == '+' then s[1..] else s
  }

  /** Decimal rendering of a natural number, most significant digit first. */
  function NatToString(n: nat): (r: string)
    ensures r != [] && AllDigits(r)
    ensures DigitsValue(r) == n
  {
    if n < 10 then ['0' + n as char]
    else
      var r := NatToString(n / 10) + ['0' + (n % 10) as char];
      assert r[..|r| - 1] == NatToString(n / 10);
      r
  }

  /** Integer.toString / String.valueOf(int). */
  function IntToString(v: int): (r: string)
  {
    if v < 0 then "-" + NatToString(-v) else NatToString(v)
  }

  /** Parsing the decimal rendering of any 32-bit integer gives it back. */
  lemma IntRoundTrip(v: int)
    requires InInt32(v)
    ensures ParseInt(IntToString(v)) == Some(v)
  {
    var s := IntToString(v);
    if v < 0 {
      assert SignedBody(s) == NatToString(-v);
    } else {
      assert SignedBody(s) == NatToString(v);
    }
  }

  /**
   * The converse of ParseInt's contract: an optional sign followed by one
   * or more digits whose value lies within 32 bits parses to that value.
   */
  lemma ParseSignedDigits(sign: string, ds: string)
    requires sign == "" || sign == "-" || sign == "+"
    requires ds != [] && AllDigits(ds)
    requires InInt32(if sign == "-" then -(DigitsValue(ds) as int) else DigitsValue(ds) as int)
    ensures ParseInt(sign + ds) == Some(if sign == "-" then -(DigitsValue(ds) as int) else DigitsValue(ds) as int)
  {
    var s := sign + ds;
    if sign == "" {
      assert s == ds;
      assert IsDigit(ds[0]);
    } else {
      assert s[1..] == ds;
    }
  }

  /** String.valueOf(boolean). */
  function BoolToString(b: bool): string
  {
    if b then "true" else "false"
  }

  /**
   * The characters equalsIgnoreCase accepts for the ASCII lower-case
   * letter `letter`: the letter, its upper case, and U+017F (long s),
   * whose upper case is 'S'.
   */
  predicate FoldsTo(c: char, letter: char)
    requires 'a' <= letter <= 'z'
  {
    c == letter || c as int == letter as int - 32 || (letter == 's' && c == '\U{17F}')
  }

  /** `s.equalsIgnoreCase(word)` for a word of ASCII lower-case letters. */
  predicate EqualsIgnoreCase(s: string, word: string)
    requires forall k :: 0 <= k < |word| ==> 'a' <= word[k] <= 'z'
  {
    |s| == |word| && forall k :: 0 <= k < |s| ==> FoldsTo(s[k], word[k])
  }

  /** The `.` to `\.` escaping applied to names used inside result keys. */
  function Escape(s: string): (r: string)
    ensures |r| >= |s|
    ensures s == [] <==> r == []
  {
    if s == [] then ""
    else (if s[0] == '.' then "\\." else [s[0]]) + Escape(s[1..])
  }

  /** An escaped name never has a '.' right after a non-backslash start. */
  lemma {:induction false} EscapeSecond(s: string)
    requires |s| >= 2 && s[0] != '.'
    ensures Escape(s)[1] != '.'
  {
    assert Escape(s) == [s[0]] + Escape(s[1..]);
    assert Escape(s[1..]) == (if s[1] == '.' then "\\." else [s[1]]) + Escape(s[2..]);
  }

  /** Distinct names give distinct escaped keys. */
  lemma {:induction false} EscapeInjective(a: string, b: string)
    requires Escape(a) == Escape(b)
    ensures a == b
    decreases |a|
  {
    if a != [] && b != [] {
      if a[0] == '.' && b[0] == '.' {
        assert Escape(a) == "\\." + Escape(a[1..]);
        assert Escape(b) == "\\." + Escape(b[1..]);
        assert Escape(a[1..]) == Escape(a)[2..] == Escape(b)[2..] == Escape(b[1..]);
        EscapeInjective(a[1..], b[1..]);
        assert a == [a[0]] + a[1..];
        assert b == [b[0]] + b[1..];
      } else if a[0] == '.' {
        assert Escape(a) == "\\." + Escape(a[1..]);
        assert |Escape(b)| >= 2;
        if |b| >= 2 {
          EscapeSecond(b);
        }
        assert false;
      } else if b[0] == '.' {
        assert Escape(b) == "\\." + Escape(b[1..]);
        assert |Escape(a)| >= 2;
        if |a| >= 2 {
          EscapeSecond(a);
        }
        assert false;
      } else {
        assert Escape(a) == [a[0]] + Escape(a[1..]);
        assert Escape(b) == [b[0]] + Escape(b[1..]);
        assert Escape(a[1..]) == Escape(a)[1..] == Escape(b)[1..] == Escape(b[1..]);
        EscapeInjective(a[1..], b[1..]);
        assert a == [a[0]] + a[1..];
        assert b == [b[0]] + b[1..];
      }
    }
  }

  /** Items joined with ", " (the body of AbstractCollection.toString). */
  function CommaJoin(xs: seq<string>): string
  {
    if xs == [] then ""
    else if |xs| == 1 then xs[0]
    else xs[0] + ", " + CommaJoin(xs[1..])
  }

  /** List.toString / Arrays.toString of strings: "[a, b, c]". */
  function JavaListString(xs: seq<string>): (r: string)
    ensures |r| >= 2 && r[0] == '[' && r[|r| - 1] == ']'
  {
    "[" + CommaJoin(xs) + "]"
  }

  /** The items of xs that do not occur in ys, in order and with repeats (List.removeAll). */
  function RemoveAll(xs: seq<string>, ys: seq<string>): (r: seq<string>)
    ensures |r| <= |xs|
    ensures forall x :: x in r <==> x in xs && x !in ys
  {
    if xs == [] then []
    else (if xs[0] in ys then [] else [xs[0]]) + RemoveAll(xs[1..], ys)
  }
}
