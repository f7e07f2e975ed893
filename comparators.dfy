/**
 * The structural conformance comparator tree. A comparator has a name, an
 * indentation, a list of flags and a list of sub-comparators; it reports a
 * difference when one of its flags is set or one of its sub-comparators
 * reports one, and renders its name line, its set flags and its differing
 * sub-comparators. A class comparator compares modifiers, the member name
 * lists (fields, methods, constructors) and interface-ness, and adds one
 * sub-comparator per actual member whose name the expected class also has.
 * Reflected classes and members are plain records here.
 */
module Comparators {
  import opened Wrappers
  import opened JavaText
  import opened Flags

  datatype MemberKind = FieldMember | MethodMember | ConstructorMember

  /**
   * A reflected field, method or constructor. `typeName` is a field's type or
   * a method's return type; `modifiers` holds the positions of the set bits
   * of the modifier integer.
   */
  datatype Member = Member(
    kind: MemberKind,
    name: string,
    declaringClass: string,
    modifiers: set<nat>,
    typeName: string,
    parameterTypes: seq<string>,
    exceptionTypes: seq<string>)

  /** The result of getFields/getMethods/getConstructors: the members, or a NoClassDefFoundError message. */
  datatype MemberList = Loaded(members: seq<Member>) | LoadFails(message: string)

  datatype ClassInfo = ClassInfo(
    name: string,
    isInterface: bool,
    modifiers: set<nat>,
    fields: MemberList,
    methods: MemberList,
    constructors: MemberList)

  datatype Comparator = Comparator(name: string, indent: nat, flags: seq<Flag>, subs: seq<Comparator>)
  {
    /** Every flag of the comparator tree: its own, then each sub-comparator's, in order. */
    ghost function AllFlags(): seq<Flag>
      decreases this, 1
    {
      flags + SubFlags(0)
    }

    /** The flags of the sub-comparator trees from index j on. */
    ghost function SubFlags(j: nat): (r: seq<Flag>)
      requires j <= |subs|
      ensures forall f :: f in r <==> exists k :: j <= k < |subs| && f in subs[k].AllFlags()
      decreases this, 0, |subs| - j
    {
      if j == |subs| then [] else subs[j].AllFlags() + SubFlags(j + 1)
    }

    /**
     * `hasDifference()`: a set flag here or a difference in a
     * sub-comparator; that is, some flag anywhere in the tree is set.
     */
    predicate HasDifference()
      ensures HasDifference() <==> exists f :: f in AllFlags() && f.IsSet()
    {
      (exists i :: 0 <= i < |flags| && flags[i].IsSet()) ||
      (exists j :: 0 <= j < |subs| && subs[j].HasDifference())
    }

    /** The name line that opens every rendering. */
    function NameLine(): string
    {
      Spaces(indent) + name + LineSeparator
    }

    /** The set flags from index i on, each rendered at indent + 4 and followed by a line separator. */
    function FlagsText(i: nat): (r: string)
      requires i <= |flags|
      ensures r == [] <==> forall j :: i <= j < |flags| ==> !flags[j].IsSet()
      decreases |flags| - i
    {
      if i == |flags| then ""
      else (if flags[i].IsSet() then flags[i].ToString(indent + 4) + LineSeparator else "") + FlagsText(i + 1)
    }

    /** The renderings of the differing sub-comparators from index i on. */
    function SubsText(i: nat): (r: string)
      requires i <= |subs|
      ensures r == [] <==> forall j :: i <= j < |subs| ==> !subs[j].HasDifference()
      decreases this, |subs| - i
    {
      if i == |subs| then ""
      else (if subs[i].HasDifference() then subs[i].ToString() else "") + SubsText(i + 1)
    }

    /**
     * `toString()`: the name line, then the set flags, then the differing
     * sub-comparators. It is longer than the name line exactly when there is
     * a difference.
     */
    function ToString(): (r: string)
      ensures StartsWith(r, NameLine())
      ensures HasDifference() <==> |r| > |NameLine()|
      ensures !HasDifference() ==> r == NameLine()
      decreases this, |subs| + 1
    {
      var r := NameLine() + FlagsText(0) + SubsText(0);
      assert r[..|NameLine()|] == NameLine();
      r
    }
  }

  /** The modifier keywords in the order Modifier.toString prints them, with their bit positions. */
  const ModifierOrder: seq<(nat, string)> := [
    (0, "public"), (2, "protected"), (1, "private"), (10, "abstract"), (3, "static"), (4, "final"),
    (7, "transient"), (6, "volatile"), (5, "synchronized"), (8, "native"), (11, "strictfp"), (9, "interface")]

  /** The keywords of the set bits, from position i of ModifierOrder on. */
  function ModifierWords(mods: set<nat>, i: nat): (r: seq<string>)
    requires i <= |ModifierOrder|
    ensures r == [] <==> forall j :: i <= j < |ModifierOrder| ==> ModifierOrder[j].0 !in mods
    decreases |ModifierOrder| - i
  {
    if i == |ModifierOrder| then []
    else (if ModifierOrder[i].0 in mods then [ModifierOrder[i].1] else []) + ModifierWords(mods, i + 1)
  }

  /** `Modifier.toString(mod)`: the keywords separated by single spaces; empty when no named bit is set. */
  function ModifierString(mods: set<nat>): (r: string)
    ensures r == [] <==> forall p :: p in mods ==> p > 11
  {
    ModifierWordsEmpty(mods);
    JoinWith(ModifierWords(mods, 0), ' ')
  }

  /** No keyword is printed exactly when no named bit is set; the printed text is empty exactly then. */
  lemma {:induction false} ModifierWordsEmpty(mods: set<nat>)
    ensures ModifierWords(mods, 0) == [] <==> forall p :: p in mods ==> p > 11
    ensures JoinWith(ModifierWords(mods, 0), ' ') == [] <==> ModifierWords(mods, 0) == []
  {
    var positions := [0, 2, 1, 10, 3, 4, 7, 6, 5, 8, 11, 9];
    assert forall j :: 0 <= j < 12 ==> ModifierOrder[j].0 == positions[j];
    forall p | p in mods && p <= 11
      ensures exists j :: 0 <= j < |ModifierOrder| && ModifierOrder[j].0 == p
    {
      assert p in positions;
    }
    var words := ModifierWords(mods, 0);
    if words != [] {
      assert words[0] != [];
      if |words| > 1 {
        assert JoinWith(words, ' ')[0] == words[0][0];
      }
    }
  }

  /** `compareModifier`: a singular flag on the rendered modifiers, set iff the modifier integers differ. */
  function ModifierFlag(expected: set<nat>, actual: set<nat>): (r: Flag)
    ensures r.IsSet() <==> expected != actual
    ensures r.message == "Modifier does not match!"
    ensures r.kind == Singular(ModifierString(expected), ModifierString(actual))
  {
    NewSingular("Modifier does not match!", ModifierString(expected), ModifierString(actual)).SetFlag(expected != actual)
  }

  /** The set of names in a list. */
  function NameSet(xs: seq<string>): set<string>
  {
    set x | x in xs
  }

  /** A list flag filled with expected and actual in order: set iff the two name sets differ. */
  function NamesFlag(message: string, expected: seq<string>, actual: seq<string>): (r: Flag)
    ensures r.kind == Listed(expected, actual) && r.message == message
    ensures r.IsSet() <==> NameSet(expected) != NameSet(actual)
  {
    var r := Flag(message, false, Listed(expected, actual));
    ListFlagIsSetIff(r);
    r
  }

  /** What a FieldComparator holds: modifier flag then type flag. */
  function FieldComparison(e: Member, a: Member): (c: Comparator)
    ensures c.indent == 0 && c.subs == []
    ensures |c.flags| == 2
    ensures c.flags[0].IsSet() <==> e.modifiers != a.modifiers
    ensures c.flags[1].IsSet() <==> e.typeName != a.typeName
  {
    var flags := [ModifierFlag(e.modifiers, a.modifiers),
      NewSingular("Field type does not match!", e.typeName, a.typeName)];
    Comparator("Field " + e.declaringClass + "." + e.name, 0, flags, [])
  }

  /** What a MethodComparator holds: modifier, return type, thrown exceptions, parameters. */
  function MethodComparison(e: Member, a: Member): (c: Comparator)
    ensures c.indent == 0 && c.subs == [] && |c.flags| == 4
  {
    var f0 := ModifierFlag(e.modifiers, a.modifiers);
    var f1 := NewSingular("Method return type does not match!", e.typeName, a.typeName);
    var f2 := NamesFlag("Thrown exceptions do not match!", e.exceptionTypes, a.exceptionTypes);
    var f3 := NamesFlag("Method parameters do not match!", e.parameterTypes, a.parameterTypes);
    Comparator("Method " + e.declaringClass + "." + e.name, 0, [f0, f1, f2, f3], [])
  }

  /** The four method flags are set exactly when the modifiers, the return types, the exception sets
      or the parameter-type sets differ. */
  lemma MethodFlags(e: Member, a: Member)
    ensures var c := MethodComparison(e, a);
      && (c.flags[0].IsSet() <==> e.modifiers != a.modifiers)
      && (c.flags[1].IsSet() <==> e.typeName != a.typeName)
      && (c.flags[2].IsSet() <==> NameSet(e.exceptionTypes) != NameSet(a.exceptionTypes))
      && (c.flags[3].IsSet() <==> NameSet(e.parameterTypes) != NameSet(a.parameterTypes))
  {
    var c := MethodComparison(e, a);
    assert c.flags[0] == ModifierFlag(e.modifiers, a.modifiers);
    assert c.flags[1] == NewSingular("Method return type does not match!", e.typeName, a.typeName);
    assert c.flags[2] == NamesFlag("Thrown exceptions do not match!", e.exceptionTypes, a.exceptionTypes);
    assert c.flags[3] == NamesFlag("Method parameters do not match!", e.parameterTypes, a.parameterTypes);
  }

  /** What a ConstructorComparator holds: modifier, thrown exceptions, parameters. */
  function ConstructorComparison(e: Member, a: Member): (c: Comparator)
    ensures c.indent == 0 && c.subs == []
    ensures |c.flags| == 3
    ensures c.flags[0].IsSet() <==> e.modifiers != a.modifiers
    ensures c.flags[1].IsSet() <==> NameSet(e.exceptionTypes) != NameSet(a.exceptionTypes)
    ensures c.flags[2].IsSet() <==> NameSet(e.parameterTypes) != NameSet(a.parameterTypes)
  {
    var f0 := ModifierFlag(e.modifiers, a.modifiers);
    var f1 := NamesFlag("Thrown exceptions do not match!", e.exceptionTypes, a.exceptionTypes);
    var f2 := NamesFlag("Constructor parameters do not match!", e.parameterTypes, a.parameterTypes);
    Comparator("Constructor " + e.declaringClass + "." + e.name, 0, [f0, f1, f2], [])
  }

  /** Without sub-comparators, a comparator differs exactly when one of its flags is set. */
  lemma {:induction false} FlagsOnlyDifference(c: Comparator)
    requires c.subs == []
    ensures c.HasDifference() <==> exists i :: 0 <= i < |c.flags| && c.flags[i].IsSet()
  {
  }

  /** A field comparator differs iff the modifiers or the types differ. */
  lemma FieldDifference(e: Member, a: Member)
    ensures FieldComparison(e, a).HasDifference() <==> e.modifiers != a.modifiers || e.typeName != a.typeName
  {
    var c := FieldComparison(e, a);
    FlagsOnlyDifference(c);
    if c.HasDifference() {
      var i :| 0 <= i < |c.flags| && c.flags[i].IsSet();
      assert i == 0 || i == 1;
    } else {
      assert !c.flags[0].IsSet() && !c.flags[1].IsSet();
    }
  }

  /** A method comparator differs iff modifiers, return types, exception sets or parameter sets differ. */
  lemma MethodDifference(e: Member, a: Member)
    ensures MethodComparison(e, a).HasDifference() <==> (e.modifiers != a.modifiers || e.typeName != a.typeName ||
      NameSet(e.exceptionTypes) != NameSet(a.exceptionTypes) || NameSet(e.parameterTypes) != NameSet(a.parameterTypes))
  {
    var c := MethodComparison(e, a);
    MethodFlags(e, a);
    FlagsOnlyDifference(c);
    if c.HasDifference() {
      var i :| 0 <= i < |c.flags| && c.flags[i].IsSet();
      assert i == 0 || i == 1 || i == 2 || i == 3;
    } else {
      assert !c.flags[0].IsSet() && !c.flags[1].IsSet() && !c.flags[2].IsSet() && !c.flags[3].IsSet();
    }
  }

  /** A constructor comparator differs iff modifiers, exception sets or parameter sets differ. */
  lemma ConstructorDifference(e: Member, a: Member)
    ensures ConstructorComparison(e, a).HasDifference() <==> (e.modifiers != a.modifiers ||
      NameSet(e.exceptionTypes) != NameSet(a.exceptionTypes) || NameSet(e.parameterTypes) != NameSet(a.parameterTypes))
  {
    var c := ConstructorComparison(e, a);
    FlagsOnlyDifference(c);
    if c.HasDifference() {
      var i :| 0 <= i < |c.flags| && c.flags[i].IsSet();
      assert i == 0 || i == 1 || i == 2;
    } else {
      assert !c.flags[0].IsSet() && !c.flags[1].IsSet() && !c.flags[2].IsSet();
    }
  }

  /** `buildComparator`: the comparison for the kind of member list being compared. */
  function Comparison(kind: MemberKind, e: Member, a: Member): Comparator
  {
    match kind
    case FieldMember => FieldComparison(e, a)
    case MethodMember => MethodComparison(e, a)
    case ConstructorMember => ConstructorComparison(e, a)
  }

  /** A member declared outside the `java.` packages. */
  predicate Visible(m: Member)
  {
    !StartsWith(m.declaringClass, "java.")
  }

  /** The visible members, in order. */
  function VisibleOf(ms: seq<Member>): (r: seq<Member>)
    ensures forall m :: m in r <==> m in ms && Visible(m)
  {
    if ms == [] then []
    else (if Visible(ms[0]) then [ms[0]] else []) + VisibleOf(ms[1..])
  }

  /** The member names, in order. */
  function NamesOf(ms: seq<Member>): (r: seq<string>)
    ensures |r| == |ms| && forall i :: 0 <= i < |ms| ==> r[i] == ms[i].name
  {
    if ms == [] then [] else [ms[0].name] + NamesOf(ms[1..])
  }

  /** The expected-member map: each name bound to the last member carrying it. */
  function LastByName(ms: seq<Member>): (r: map<string, Member>)
    ensures forall n :: n in r <==> n in NamesOf(ms)
    ensures forall n :: n in r ==> r[n] in ms && r[n].name == n
  {
    if ms == [] then map[]
    else
      var init := ms[..|ms| - 1];
      var m := ms[|ms| - 1];
      assert ms == init + [m];
      NamesSnoc(init, m);
      LastByName(init)[m.name := m]
  }

  /** The last member carrying a name is the one the map keeps. */
  lemma {:induction false} LastByNameIsLast(ms: seq<Member>, i: nat)
    requires i < |ms|
    requires forall j :: i < j < |ms| ==> ms[j].name != ms[i].name
    ensures ms[i].name in LastByName(ms) && LastByName(ms)[ms[i].name] == ms[i]
  {
    if i < |ms| - 1 {
      LastByNameIsLast(ms[..|ms| - 1], i);
    }
  }

  /** One sub-comparator, indented by 4, per actual member whose name has an expected member. */
  function Matched(kind: MemberKind, expectedByName: map<string, Member>, actual: seq<Member>): (r: seq<Comparator>)
    ensures |r| <= |actual|
    ensures forall c :: c in r ==> c.indent == 4
  {
    if actual == [] then []
    else
      var a := actual[|actual| - 1];
      Matched(kind, expectedByName, actual[..|actual| - 1]) +
        (if a.name in expectedByName then [Comparison(kind, expectedByName[a.name], a).(indent := 4)] else [])
  }

  /** The three member groups of a class comparison, in the order they are compared. */
  datatype Group = Group(message: string, kind: MemberKind, expected: MemberList, actual: MemberList)

  function Groups(e: ClassInfo, a: ClassInfo): seq<Group>
  {
    [Group("Class fields do not match!", FieldMember, e.fields, a.fields),
     Group("Class methods do not match!", MethodMember, e.methods, a.methods),
     Group("Class constructors do not match!", ConstructorMember, e.constructors, a.constructors)]
  }

  /** The flag a loaded group contributes. */
  function GroupFlag(g: Group): Flag
    requires g.expected.Loaded? && g.actual.Loaded?
  {
    NamesFlag(g.message, NamesOf(VisibleOf(g.expected.members)), NamesOf(VisibleOf(g.actual.members)))
  }

  /** The sub-comparators a loaded group contributes. */
  function GroupSubs(g: Group): seq<Comparator>
    requires g.expected.Loaded? && g.actual.Loaded?
  {
    Matched(g.kind, LastByName(VisibleOf(g.expected.members)), VisibleOf(g.actual.members))
  }

  /** The message of the first failing member list of g, if any (expected is asked first). */
  function GroupFailure(g: Group): Option<string>
  {
    if g.expected.LoadFails? then Some(g.expected.message)
    else if g.actual.LoadFails? then Some(g.actual.message)
    else None
  }

  /**
   * Flags and sub-comparators of groups i onwards: a group whose member list
   * cannot be loaded contributes the always-set "Failed to load fields"
   * flag and ends the member comparison.
   */
  function Members(groups: seq<Group>, i: nat): (r: (seq<Flag>, seq<Comparator>))
    requires i <= |groups|
    decreases |groups| - i
  {
    if i == |groups| then ([], [])
    else match GroupFailure(groups[i])
      case Some(msg) => ([NewFlagWith("Failed to load fields: " + msg, true)], [])
      case None =>
        var rest := Members(groups, i + 1);
        ([GroupFlag(groups[i])] + rest.0, GroupSubs(groups[i]) + rest.1)
  }

  function ClassName(e: ClassInfo): string
  {
    (if e.isInterface then "interface " else "class ") + e.name
  }

  /** What a ClassComparator holds. */
  function ClassComparison(e: ClassInfo, a: ClassInfo): (c: Comparator)
    ensures c.name == ClassName(e) && c.indent == 0
    ensures |c.flags| >= 4 && c.flags[0] == ModifierFlag(e.modifiers, a.modifiers)
  {
    var members := Members(Groups(e, a), 0);
    Comparator(ClassName(e), 0, [ModifierFlag(e.modifiers, a.modifiers)] + members.0 + InterfaceFlags(e, a), members.1)
  }

  /** The two interface flags that close a class comparison. */
  function InterfaceFlags(e: ClassInfo, a: ClassInfo): (fs: seq<Flag>)
    ensures |fs| == 2
    ensures fs[0].IsSet() <==> e.isInterface && !a.isInterface
    ensures fs[1].IsSet() <==> !e.isInterface && a.isInterface
    ensures !(fs[0].IsSet() && fs[1].IsSet())
  {
    [NewFlag("Expected class to be an interface").SetFlag(e.isInterface && !a.isInterface),
     NewFlag("Class should not be an interface").SetFlag(!e.isInterface && a.isInterface)]
  }

  /** The last two flags of a class comparison catch a class/interface mismatch in each direction, never both. */
  lemma ClassInterfaceFlags(e: ClassInfo, a: ClassInfo)
    ensures var c := ClassComparison(e, a);
      && (c.flags[|c.flags| - 2].IsSet() <==> e.isInterface && !a.isInterface)
      && (c.flags[|c.flags| - 1].IsSet() <==> !e.isInterface && a.isInterface)
  {
    var c := ClassComparison(e, a);
    var fs := InterfaceFlags(e, a);
    assert c.flags[|c.flags| - 2] == fs[0] && c.flags[|c.flags| - 1] == fs[1];
  }

  // ---- the imperative builders ----

  /** The name-list flag filled one `addExpected`/`addActual` call at a time. */
  method FillNamesFlag(message: string, expected: seq<string>, actual: seq<string>) returns (f: Flag)
    ensures f == NamesFlag(message, expected, actual)
  {
    f := NewListFlag(message);
    for i := 0 to |expected|
      invariant f == Flag(message, false, Listed(expected[..i], []))
    {
      f := f.AddExpected(expected[i]);
      assert expected[..i + 1] == expected[..i] + [expected[i]];
    }
    assert expected[..|expected|] == expected;
    for i := 0 to |actual|
      invariant f == Flag(message, false, Listed(expected, actual[..i]))
    {
      f := f.AddActual(actual[i]);
      assert actual[..i + 1] == actual[..i] + [actual[i]];
    }
    assert actual[..|actual|] == actual;
  }

  /** `new MethodComparator(e, a)`: the flags in the order `compare` adds them. */
  method CompareMethod(e: Member, a: Member) returns (c: Comparator)
    ensures c == MethodComparison(e, a)
  {
    var modifierFlag := ModifierFlag(e.modifiers, a.modifiers);
    var returnFlag := NewSingular("Method return type does not match!", e.typeName, a.typeName);
    var exceptionFlag := FillNamesFlag("Thrown exceptions do not match!", e.exceptionTypes, a.exceptionTypes);
    var parametersFlag := FillNamesFlag("Method parameters do not match!", e.parameterTypes, a.parameterTypes);
    c := Comparator("Method " + e.declaringClass + "." + e.name, 0,
      [modifierFlag, returnFlag, exceptionFlag, parametersFlag], []);
  }

  /** `new ConstructorComparator(e, a)`: the flags in the order `compare` adds them. */
  method CompareConstructor(e: Member, a: Member) returns (c: Comparator)
    ensures c == ConstructorComparison(e, a)
  {
    var modifierFlag := ModifierFlag(e.modifiers, a.modifiers);
    var exceptionFlag := FillNamesFlag("Thrown exceptions do not match!", e.exceptionTypes, a.exceptionTypes);
    var parametersFlag := FillNamesFlag("Constructor parameters do not match!", e.parameterTypes, a.parameterTypes);
    c := Comparator("Constructor " + e.declaringClass + "." + e.name, 0, [modifierFlag, exceptionFlag, parametersFlag], []);
  }

  /** `buildComparator` followed by setting the indent to 4. */
  method BuildComparator(kind: MemberKind, e: Member, a: Member) returns (c: Comparator)
    ensures c == Comparison(kind, e, a).(indent := 4)
  {
    match kind {
      case FieldMember => c := FieldComparison(e, a);
      case MethodMember => c := CompareMethod(e, a);
      case ConstructorMember => c := CompareConstructor(e, a);
    }
    c := c.(indent := 4);
  }

  /**
   * `compareMembers`: records the visible expected names and maps each name
   * to its last member, then records the visible actual names and builds a
   * sub-comparator for each actual member with an expected namesake.
   */
  method CompareMembers(g: Group) returns (flag: Flag, subs: seq<Comparator>)
    requires g.expected.Loaded? && g.actual.Loaded?
    ensures flag == GroupFlag(g) && subs == GroupSubs(g)
  {
    flag := NewListFlag(g.message);
    var expectedMembers;
    flag, expectedMembers := RecordExpected(flag, g.expected.members);
    flag, subs := RecordActual(flag, g.kind, expectedMembers, g.actual.members);
  }

  /** The first loop of `compareMembers`: the visible expected names go into the flag and the name map. */
  method RecordExpected(flag0: Flag, expected: seq<Member>) returns (flag: Flag, expectedMembers: map<string, Member>)
    requires flag0.kind == Listed([], [])
    ensures flag == flag0.(kind := Listed(NamesOf(VisibleOf(expected)), []))
    ensures expectedMembers == LastByName(VisibleOf(expected))
  {
    flag := flag0;
    expectedMembers := map[];
    for i := 0 to |expected|
      invariant flag == flag0.(kind := Listed(NamesOf(VisibleOf(expected[..i])), []))
      invariant expectedMembers == LastByName(VisibleOf(expected[..i]))
    {
      var seen := VisibleOf(expected[..i]);
      var member := expected[i];
      VisibleSnoc(expected, i);
      NamesSnoc(seen, member);
      LastByNameSnoc(seen, member);
      if Visible(member) {
        flag := flag.AddExpected(member.name);
        expectedMembers := expectedMembers[member.name := member];
      }
    }
    assert expected[..|expected|] == expected;
  }

  /**
   * The second loop of `compareMembers`: the visible actual names go into the
   * flag, and each one with an expected namesake gets a sub-comparator.
   */
  method RecordActual(flag0: Flag, kind: MemberKind, expectedMembers: map<string, Member>, actual: seq<Member>)
    returns (flag: Flag, subs: seq<Comparator>)
    requires flag0.kind.Listed? && flag0.kind.actualItems == []
    ensures flag == Flag(flag0.message, flag0.flag, Listed(flag0.kind.expectedItems, NamesOf(VisibleOf(actual))))
    ensures subs == Matched(kind, expectedMembers, VisibleOf(actual))
  {
    flag := flag0;
    subs := [];
    ghost var message, expectedNames := flag0.message, flag0.kind.expectedItems;
    for i := 0 to |actual|
      invariant flag == Flag(message, flag0.flag, Listed(expectedNames, NamesOf(VisibleOf(actual[..i]))))
      invariant subs == Matched(kind, expectedMembers, VisibleOf(actual[..i]))
    {
      var seen := VisibleOf(actual[..i]);
      var member := actual[i];
      VisibleSnoc(actual, i);
      NamesSnoc(seen, member);
      MatchedSnoc(kind, expectedMembers, seen, member);
      if Visible(member) {
        flag := flag.AddActual(member.name);
        if member.name in expectedMembers {
          var comparator := BuildComparator(kind, expectedMembers[member.name], member);
          subs := subs + [comparator];
        }
      }
    }
    assert actual[..|actual|] == actual;
  }

  /** One loaded group moves from the pending part of `Members` to the accumulated part. */
  lemma MembersLoadedStep(groups: seq<Group>, i: nat, flags: seq<Flag>, subs: seq<Comparator>)
    requires i < |groups| && GroupFailure(groups[i]).None?
    requires Members(groups, 0) == (flags + Members(groups, i).0, subs + Members(groups, i).1)
    ensures Members(groups, 0) ==
      ((flags + [GroupFlag(groups[i])]) + Members(groups, i + 1).0, (subs + GroupSubs(groups[i])) + Members(groups, i + 1).1)
  {
    var rest := Members(groups, i + 1);
    assert Members(groups, i) == ([GroupFlag(groups[i])] + rest.0, GroupSubs(groups[i]) + rest.1);
    assert flags + ([GroupFlag(groups[i])] + rest.0) == (flags + [GroupFlag(groups[i])]) + rest.0;
    assert subs + (GroupSubs(groups[i]) + rest.1) == (subs + GroupSubs(groups[i])) + rest.1;
  }

  /** A group that fails to load ends `Members` with its failure flag. */
  lemma {:induction false} MembersFailureStep(groups: seq<Group>, i: nat, flags: seq<Flag>, subs: seq<Comparator>)
    requires i < |groups| && GroupFailure(groups[i]).Some?
    requires Members(groups, 0) == (flags + Members(groups, i).0, subs + Members(groups, i).1)
    ensures Members(groups, 0) == (flags + [NewFlagWith("Failed to load fields: " + GroupFailure(groups[i]).value, true)], subs)
  {
    assert subs + [] == subs;
  }

  /** The member part of the class comparison: the groups in order, stopping at the first that cannot be loaded. */
  method CompareGroups(groups: seq<Group>) returns (flags: seq<Flag>, subs: seq<Comparator>)
    ensures (flags, subs) == Members(groups, 0)
  {
    flags, subs := [], [];
    var i := 0;
    assert [] + Members(groups, 0).0 == Members(groups, 0).0 && [] + Members(groups, 0).1 == Members(groups, 0).1;
    while i < |groups|
      invariant 0 <= i <= |groups|
      invariant Members(groups, 0) == (flags + Members(groups, i).0, subs + Members(groups, i).1)
    {
      var failure := GroupFailure(groups[i]);
      if failure.Some? {
        MembersFailureStep(groups, i, flags, subs);
        flags := flags + [NewFlagWith("Failed to load fields: " + failure.value, true)];
        return;
      }
      var flag, groupSubs := CompareMembers(groups[i]);
      MembersLoadedStep(groups, i, flags, subs);
      flags := flags + [flag];
      subs := subs + groupSubs;
      i := i + 1;
    }
    assert flags + [] == flags && subs + [] == subs;
  }

  /** `new ClassComparator(e, a)`. */
  method CompareClass(e: ClassInfo, a: ClassInfo) returns (c: Comparator)
    ensures c == ClassComparison(e, a)
  {
    var flags: seq<Flag> := [ModifierFlag(e.modifiers, a.modifiers)];
    var memberFlags, subs := CompareGroups(Groups(e, a));
    flags := flags + memberFlags;
    var shouldBeInterface := NewFlag("Expected class to be an interface");
    shouldBeInterface := shouldBeInterface.SetFlag(e.isInterface && !a.isInterface);
    var shouldBeClass := NewFlag("Class should not be an interface");
    shouldBeClass := shouldBeClass.SetFlag(!e.isInterface && a.isInterface);
    flags := flags + [shouldBeInterface, shouldBeClass];
    c := Comparator(ClassName(e), 0, flags, subs);
  }

  lemma VisibleSnoc(ms: seq<Member>, i: nat)
    requires i < |ms|
    ensures Visible(ms[i]) ==> VisibleOf(ms[..i + 1]) == VisibleOf(ms[..i]) + [ms[i]]
    ensures !Visible(ms[i]) ==> VisibleOf(ms[..i + 1]) == VisibleOf(ms[..i])
  {
    VisibleAppend(ms[..i], [ms[i]]);
    assert ms[..i + 1] == ms[..i] + [ms[i]];
    assert VisibleOf(ms[..i]) + [] == VisibleOf(ms[..i]);
  }

  lemma {:induction false} VisibleAppend(xs: seq<Member>, ys: seq<Member>)
    ensures VisibleOf(xs + ys) == VisibleOf(xs) + VisibleOf(ys)
  {
    if xs != [] {
      VisibleAppend(xs[1..], ys);
      assert (xs + ys)[1..] == xs[1..] + ys;
    } else {
      assert xs + ys == ys;
    }
  }

  lemma {:induction false} NamesSnoc(ms: seq<Member>, m: Member)
    ensures NamesOf(ms + [m]) == NamesOf(ms) + [m.name]
  {
  }

  lemma {:induction false} LastByNameSnoc(ms: seq<Member>, m: Member)
    ensures LastByName(ms + [m]) == LastByName(ms)[m.name := m]
  {
    assert (ms + [m])[..|ms|] == ms;
  }

  lemma {:induction false} MatchedSnoc(kind: MemberKind, byName: map<string, Member>, ms: seq<Member>, m: Member)
    ensures Matched(kind, byName, ms + [m]) ==
      Matched(kind, byName, ms) + (if m.name in byName then [Comparison(kind, byName[m.name], m).(indent := 4)] else [])
  {
    assert (ms + [m])[..|ms|] == ms;
  }

  // ---- properties of the comparison ----

  /** Member names are pairwise distinct (no overloads). */
  predicate DistinctNames(ms: seq<Member>)
  {
    forall i, j :: 0 <= i < j < |ms| ==> ms[i].name != ms[j].name
  }

  /** A member compared with itself shows no difference, whatever its kind. */
  lemma SelfComparisonClean(kind: MemberKind, m: Member)
    ensures !Comparison(kind, m, m).HasDifference()
  {
    match kind {
      case FieldMember => FieldDifference(m, m);
      case MethodMember => MethodDifference(m, m);
      case ConstructorMember => ConstructorDifference(m, m);
    }
  }

  /** Indenting does not change whether a comparator differs. */
  lemma IndentedSelfClean(kind: MemberKind, m: Member)
    ensures !Comparison(kind, m, m).(indent := 4).HasDifference()
  {
    var same := Comparison(kind, m, m);
    SelfComparisonClean(kind, m);
    assert same.(indent := 4).flags == same.flags && same.(indent := 4).subs == same.subs;
  }

  /** When every member's name maps to that member, every sub-comparator compares a member with itself. */
  lemma {:induction false} MatchedClean(kind: MemberKind, byName: map<string, Member>, xs: seq<Member>)
    requires forall x :: x in xs ==> x.name in byName && byName[x.name] == x
    ensures forall c :: c in Matched(kind, byName, xs) ==> !c.HasDifference()
  {
    if xs != [] {
      var init := xs[..|xs| - 1];
      var m := xs[|xs| - 1];
      assert forall x :: x in init ==> x in xs;
      MatchedClean(kind, byName, init);
      IndentedSelfClean(kind, m);
      assert Matched(kind, byName, xs) == Matched(kind, byName, init) + [Comparison(kind, m, m).(indent := 4)];
    }
  }

  /** Every sub-comparator built from a list of distinct names against itself compares a member with itself. */
  lemma {:induction false} MatchedSelf(kind: MemberKind, ms: seq<Member>)
    requires DistinctNames(ms)
    ensures forall c :: c in Matched(kind, LastByName(ms), ms) ==> !c.HasDifference()
  {
    var byName := LastByName(ms);
    forall x | x in ms
      ensures x.name in byName && byName[x.name] == x
    {
      var i :| 0 <= i < |ms| && ms[i] == x;
      LastByNameIsLast(ms, i);
    }
    MatchedClean(kind, byName, ms);
  }

  lemma {:induction false} VisibleDistinct(ms: seq<Member>)
    requires DistinctNames(ms)
    ensures DistinctNames(VisibleOf(ms))
  {
    if ms != [] {
      VisibleDistinct(ms[1..]);
      assert forall m :: m in VisibleOf(ms[1..]) ==> m in ms[1..];
      assert forall m :: m in ms[1..] ==> m.name != ms[0].name;
    }
  }

  /** A group whose expected and actual lists are the same loaded list of distinct names. */
  predicate SelfGroup(g: Group)
  {
    g.expected == g.actual && g.expected.Loaded? && DistinctNames(g.expected.members)
  }

  /** A group compared with itself raises no flag and no differing sub-comparator. */
  lemma GroupSelfClean(g: Group)
    requires SelfGroup(g)
    ensures !GroupFlag(g).IsSet()
    ensures forall s :: s in GroupSubs(g) ==> !s.HasDifference()
  {
    var vs := VisibleOf(g.expected.members);
    VisibleDistinct(g.expected.members);
    MatchedSelf(g.kind, vs);
  }

  lemma {:induction false} MembersSelfClean(groups: seq<Group>, i: nat)
    requires i <= |groups|
    requires forall k :: i <= k < |groups| ==> SelfGroup(groups[k])
    ensures forall f :: f in Members(groups, i).0 ==> !f.IsSet()
    ensures forall s :: s in Members(groups, i).1 ==> !s.HasDifference()
    decreases |groups| - i
  {
    if i < |groups| {
      GroupSelfClean(groups[i]);
      MembersSelfClean(groups, i + 1);
    }
  }

  /** A comparator with no set flag and no differing sub-comparator shows no difference. */
  lemma {:induction false} NothingSetNoDifference(c: Comparator)
    requires forall f :: f in c.flags ==> !f.IsSet()
    requires forall s :: s in c.subs ==> !s.HasDifference()
    ensures !c.HasDifference()
  {
    forall i | 0 <= i < |c.flags|
      ensures !c.flags[i].IsSet()
    {
      assert c.flags[i] in c.flags;
    }
    forall j | 0 <= j < |c.subs|
      ensures !c.subs[j].HasDifference()
    {
      assert c.subs[j] in c.subs;
    }
  }

  /** A class whose member lists all load and carry distinct names shows no difference against itself. */
  lemma ClassSelfComparisonClean(e: ClassInfo)
    requires e.fields.Loaded? && e.methods.Loaded? && e.constructors.Loaded?
    requires DistinctNames(e.fields.members) && DistinctNames(e.methods.members) && DistinctNames(e.constructors.members)
    ensures !ClassComparison(e, e).HasDifference()
  {
    var groups := Groups(e, e);
    assert SelfGroup(groups[0]) && SelfGroup(groups[1]) && SelfGroup(groups[2]);
    MembersSelfClean(groups, 0);
    CleanMembersCleanClass(e);
  }

  /** The class comparison of e with itself is clean once its member flags and sub-comparators are. */
  lemma CleanMembersCleanClass(e: ClassInfo)
    requires forall f :: f in Members(Groups(e, e), 0).0 ==> !f.IsSet()
    requires forall s :: s in Members(Groups(e, e), 0).1 ==> !s.HasDifference()
    ensures !ClassComparison(e, e).HasDifference()
  {
    var members := Members(Groups(e, e), 0);
    var c := ClassComparison(e, e);
    ClassInterfaceFlags(e, e);
    var outer := [c.flags[0]] + members.0 + [c.flags[|c.flags| - 2], c.flags[|c.flags| - 1]];
    assert c.flags == outer && c.subs == members.1;
    assert !c.flags[0].IsSet() && !c.flags[|c.flags| - 2].IsSet() && !c.flags[|c.flags| - 1].IsSet();
    NothingSetNoDifference(c);
  }

  /** The first sub-comparator compares the first actual member, when its name has an expected member. */
  lemma {:induction false} MatchedHead(kind: MemberKind, byName: map<string, Member>, ms: seq<Member>)
    requires |ms| > 0 && ms[0].name in byName
    ensures var subs := Matched(kind, byName, ms);
      |subs| > 0 && subs[0] == Comparison(kind, byName[ms[0].name], ms[0]).(indent := 4)
  {
    var init := ms[..|ms| - 1];
    if |ms| == 1 {
      assert init == [];
    } else {
      assert init[0] == ms[0];
      MatchedHead(kind, byName, init);
    }
  }

  /** With two visible overloads, the first sub-comparator compares the first actual one with the last expected one. */
  lemma OverloadFirstSub(m1: Member, m2: Member)
    requires Visible(m1) && Visible(m2) && m1.name == m2.name
    ensures VisibleOf([m1, m2]) == [m1, m2]
    ensures var subs := Matched(MethodMember, LastByName([m1, m2]), [m1, m2]);
      |subs| > 0 && subs[0] == MethodComparison(m2, m1).(indent := 4)
  {
    assert [m1, m2][1..] == [m2];
    assert VisibleOf([m2]) == [m2] + VisibleOf([]);
    var byName := LastByName([m1, m2]);
    LastByNameIsLast([m1, m2], 1);
    MatchedHead(MethodMember, byName, [m1, m2]);
  }

  /** In a class whose only members are two visible overloads, the first sub-comparator compares the first overload with the second. */
  lemma ClassFirstSub(e: ClassInfo, m1: Member, m2: Member)
    requires e.fields == Loaded([]) && e.methods == Loaded([m1, m2]) && e.constructors == Loaded([])
    requires Visible(m1) && Visible(m2) && m1.name == m2.name
    ensures var c := ClassComparison(e, e);
      |c.subs| > 0 && c.subs[0] == MethodComparison(m2, m1).(indent := 4)
  {
    OverloadFirstSub(m1, m2);
    var first := MethodComparison(m2, m1).(indent := 4);
    var groups := Groups(e, e);
    var matched := GroupSubs(groups[1]);
    assert matched[0] == first;
    assert GroupSubs(groups[0]) == [];
    var c := ClassComparison(e, e);
    var rest := Members(groups, 1);
    assert c.subs == GroupSubs(groups[0]) + rest.1;
    assert rest.1 == matched + Members(groups, 2).1;
  }

  /**
   * Two overloads sharing a name: each actual overload is compared with the
   * last expected one, so a class with overloads differing in parameter
   * types differs from itself.
   */
  lemma OverloadsDifferFromThemselves(e: ClassInfo, m1: Member, m2: Member)
    requires e.fields == Loaded([]) && e.methods == Loaded([m1, m2]) && e.constructors == Loaded([])
    requires Visible(m1) && Visible(m2) && m1.name == m2.name
    requires NameSet(m1.parameterTypes) != NameSet(m2.parameterTypes)
    ensures ClassComparison(e, e).HasDifference()
  {
    ClassFirstSub(e, m1, m2);
    MethodDifference(m2, m1);
    var first := MethodComparison(m2, m1).(indent := 4);
    assert first.flags == MethodComparison(m2, m1).flags && first.subs == [];
    assert first.HasDifference();
    var c := ClassComparison(e, e);
    assert c.subs[0].HasDifference();
  }
}
