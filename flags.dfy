/**
 * The flags a conformance comparator raises. A plain flag is a message and
 * a boolean; a singular flag is set when an expected value differs from the
 * actual one; a list flag is set when the expected and actual item lists
 * differ as sets. Every flag renders itself indented by a number of spaces.
 * Flags are values here: each one is complete before a comparator stores it.
 */
module Flags {
  import opened JavaText

  datatype FlagKind =
    | Plain
    | Singular(expected: string, actual: string)
    | Listed(expectedItems: seq<string>, actualItems: seq<string>)

  datatype Flag = Flag(message: string, flag: bool, kind: FlagKind)
  {
    /** `isSet()`: the stored state, except that a list flag compares its lists (as sets). */
    predicate IsSet()
      ensures !kind.Listed? ==> (IsSet() <==> flag)
      ensures kind.Listed? ==> (IsSet() <==> exists x :: (x in kind.expectedItems) != (x in kind.actualItems))
    {
      match kind
      case Listed(expectedItems, actualItems) =>
        (exists x :: x in expectedItems && x !in actualItems) || (exists y :: y in actualItems && y !in expectedItems)
      case _ => flag
    }

    /** `setFlag(b)`: only the stored state changes. */
    function SetFlag(b: bool): (r: Flag)
      ensures r.message == message && r.kind == kind
      ensures !kind.Listed? ==> (r.IsSet() <==> b)
      ensures kind.Listed? ==> (r.IsSet() <==> IsSet())
    {
      this.(flag := b)
    }

    /** `addExpected(item)` of a list flag: appended in call order. */
    function AddExpected(item: string): (r: Flag)
      requires kind.Listed?
      ensures r.kind.Listed? && r.message == message
      ensures r.kind.expectedItems == kind.expectedItems + [item] && r.kind.actualItems == kind.actualItems
    {
      this.(kind := kind.(expectedItems := kind.expectedItems + [item]))
    }

    /** `addActual(item)` of a list flag: appended in call order. */
    function AddActual(item: string): (r: Flag)
      requires kind.Listed?
      ensures r.kind.Listed? && r.message == message
      ensures r.kind.actualItems == kind.actualItems + [item] && r.kind.expectedItems == kind.expectedItems
    {
      this.(kind := kind.(actualItems := kind.actualItems + [item]))
    }

    /** The expected items absent from the actual ones, in expected order, repeats kept. */
    function Missing(): (r: seq<string>)
      requires kind.Listed?
      ensures forall x :: x in r <==> x in kind.expectedItems && x !in kind.actualItems
    {
      RemoveAll(kind.expectedItems, kind.actualItems)
    }

    /** The actual items absent from the expected ones, in actual order, repeats kept. */
    function Extra(): (r: seq<string>)
      requires kind.Listed?
      ensures forall y :: y in r <==> y in kind.actualItems && y !in kind.expectedItems
    {
      RemoveAll(kind.actualItems, kind.expectedItems)
    }

    /** `toString(indent)`. */
    function ToString(indent: nat): (r: string)
      ensures StartsWith(r, Spaces(indent) + message)
    {
      var pad := Spaces(indent);
      match kind
      case Plain => pad + message
      case Singular(e, a) =>
        JoinLines([pad + message, pad + "Expected: " + e, pad + "Actual:   " + a])
      case Listed(_, _) =>
        JoinLines([pad + message, pad + "Missing: " + JavaListString(Missing()), pad + "Extra:   " + JavaListString(Extra())])
    }
  }

  /** `new Flag(message)`. */
  function NewFlag(message: string): (r: Flag)
    ensures !r.IsSet() && r.message == message && r.kind.Plain?
  {
    Flag(message, false, Plain)
  }

  /** `new Flag(message, flag)`. */
  function NewFlagWith(message: string, flag: bool): (r: Flag)
    ensures (r.IsSet() <==> flag) && r.message == message && r.kind.Plain?
  {
    Flag(message, flag, Plain)
  }

  /** `new SingularFlag(message, expected, actual)`: set iff the two differ. */
  function NewSingular(message: string, expected: string, actual: string): (r: Flag)
    ensures r.IsSet() <==> expected != actual
    ensures r.message == message && r.kind == Singular(expected, actual)
  {
    Flag(message, expected != actual, Singular(expected, actual))
  }

  /** `new ListFlag(message)`: both lists empty. */
  function NewListFlag(message: string): (r: Flag)
    ensures !r.IsSet() && r.message == message && r.kind == Listed([], [])
  {
    Flag(message, false, Listed([], []))
  }

  /** A list flag is set exactly when its two lists hold different sets of items. */
  lemma ListFlagIsSetIff(f: Flag)
    requires f.kind.Listed?
    ensures f.IsSet() <==> (set x | x in f.kind.expectedItems) != (set y | y in f.kind.actualItems)
  {
    var e := set x | x in f.kind.expectedItems;
    var a := set y | y in f.kind.actualItems;
    if e != a {
      if exists x :: x in e && x !in a {
        var x :| x in e && x !in a;
        assert x in f.kind.expectedItems && x !in f.kind.actualItems;
      } else {
        var y :| y in a && y !in e;
        assert y in f.kind.actualItems && y !in f.kind.expectedItems;
      }
    }
    if f.IsSet() {
      if exists x :: x in f.kind.expectedItems && x !in f.kind.actualItems {
        var x :| x in f.kind.expectedItems && x !in f.kind.actualItems;
        assert x in e && x !in a;
      } else {
        var y :| y in f.kind.actualItems && y !in f.kind.expectedItems;
        assert y in a && y !in e;
      }
    }
  }

  /** A list flag is unset exactly when nothing is missing and nothing is extra. */
  lemma ListFlagIsSetMissingExtra(f: Flag)
    requires f.kind.Listed?
    ensures f.IsSet() <==> f.Missing() != [] || f.Extra() != []
  {
    if f.Missing() != [] {
      assert f.Missing()[0] in f.Missing();
    }
    if f.Extra() != [] {
      assert f.Extra()[0] in f.Extra();
    }
  }

  /** Adding the same items to both sides of a list flag, in any order, leaves it unset. */
  lemma ListFlagOrderFree(message: string, items: seq<string>, shuffled: seq<string>)
    requires forall x :: x in items <==> x in shuffled
    ensures !Flag(message, false, Listed(items, shuffled)).IsSet()
  {
  }

  /** A rendered singular flag reads back as its three lines. */
  lemma {:induction false} SingularLines(message: string, e: string, a: string, indent: nat)
    requires NoLineBreak(message) && NoLineBreak(e) && NoLineBreak(a)
    ensures ReadLines(NewSingular(message, e, a).ToString(indent)) ==
      [Spaces(indent) + message, Spaces(indent) + "Expected: " + e, Spaces(indent) + "Actual:   " + a]
  {
    var pad := Spaces(indent);
    PaddedNoBreak(pad, "", message);
    PaddedNoBreak(pad, "Expected: ", e);
    PaddedNoBreak(pad, "Actual:   ", a);
    var lines := [pad + message, pad + "Expected: " + e, pad + "Actual:   " + a];
    assert pad + "" + message == pad + message;
    ReadJoinedLines(lines);
  }

  /** A rendered list flag reads back as its message, Missing and Extra lines. */
  lemma {:induction false} ListLines(f: Flag, indent: nat)
    requires f.kind.Listed? && NoLineBreak(f.message)
    requires forall x :: x in f.kind.expectedItems + f.kind.actualItems ==> NoLineBreak(x)
    ensures ReadLines(f.ToString(indent)) ==
      [Spaces(indent) + f.message, Spaces(indent) + "Missing: " + JavaListString(f.Missing()),
       Spaces(indent) + "Extra:   " + JavaListString(f.Extra())]
  {
    var pad := Spaces(indent);
    ListStringNoBreak(f.Missing());
    ListStringNoBreak(f.Extra());
    PaddedNoBreak(pad, "", f.message);
    PaddedNoBreak(pad, "Missing: ", JavaListString(f.Missing()));
    PaddedNoBreak(pad, "Extra:   ", JavaListString(f.Extra()));
    var lines := [pad + f.message, pad + "Missing: " + JavaListString(f.Missing()),
      pad + "Extra:   " + JavaListString(f.Extra())];
    assert pad + "" + f.message == pad + f.message;
    ReadJoinedLines(lines);
  }

  /** Spaces, a label and a text without line breaks make a line. */
  lemma PaddedNoBreak(pad: string, tag: string, text: string)
    requires forall k :: 0 <= k < |pad| ==> pad[k] == ' '
    requires forall k :: 0 <= k < |tag| ==> tag[k] != '\n' && tag[k] != '\r'
    requires NoLineBreak(text)
    ensures NoLineBreak(pad + tag + text)
  {
    NoBreakConcat(pad, tag);
    NoBreakConcat(pad + tag, text);
  }

  lemma {:induction false} ListStringNoBreak(xs: seq<string>)
    requires forall x :: x in xs ==> NoLineBreak(x)
    ensures NoLineBreak(JavaListString(xs))
  {
    CommaJoinNoBreak(xs);
  }

  lemma {:induction false} CommaJoinNoBreak(xs: seq<string>)
    requires forall x :: x in xs ==> NoLineBreak(x)
    ensures NoLineBreak(CommaJoin(xs))
  {
    if |xs| > 1 {
      CommaJoinNoBreak(xs[1..]);
      assert xs[0] in xs;
      NoBreakConcat(xs[0] + ", ", CommaJoin(xs[1..]));
      NoBreakConcat(xs[0], ", ");
    } else if |xs| == 1 {
      assert xs[0] in xs;
    }
  }

  lemma NoBreakConcat(a: string, b: string)
    requires NoLineBreak(a) && NoLineBreak(b)
    ensures NoLineBreak(a + b)
  {
    forall k | 0 <= k < |a + b|
      ensures !IsLineBreak((a + b)[k])
    {
      if k >= |a| {
        assert (a + b)[k] == b[k - |a|];
      }
    }
  }
}
