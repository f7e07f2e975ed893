/**
 * Typed assignment of configuration strings to fields. A field's declared
 * type picks one `assign` overload (a hand-made visitor driven by the first
 * parameter type); the overload converts the raw string and writes the
 * field of the bound instance, or reports why it cannot and leaves the
 * field alone. Java reflection is replaced by explicit records: a field is
 * its name, declared type and whether `Field.set` may write it; a method is
 * its name and first parameter type.
 */
module FieldAssigners {
  import opened Wrappers
  import opened JavaText

  /** The declared type of a field, as far as the overloads can tell types apart. */
  datatype FieldType =
    | StringType
    | FileType
    | EnumType(className: string, constants: seq<string>)  // constants by their toString
    | IntType
    | BooleanType
    | ListType
    | ArrayType
    | ZipType
    | OtherType(name: string)

  /** The first parameter type of a public method. */
  datatype ParamType =
    | StringParam | FileParam | EnumParam | IntParam | BooleanParam | ListParam | ArrayParam | ZipParam
    | ObjectParam
    | OtherParam(name: string)

  datatype MethodSig = MethodSig(name: string, firstParam: ParamType)

  /** `p.isAssignableFrom(t)`: a value of declared type t may be passed as p. */
  predicate AssignableFrom(p: ParamType, t: FieldType)
  {
    match p
    case StringParam => t.StringType?
    case FileParam => t.FileType?
    case EnumParam => t.EnumType?
    case IntParam => t.IntType?
    case BooleanParam => t.BooleanType?
    case ListParam => t.ListType?
    case ArrayParam => t.ArrayType?
    case ZipParam => t.ZipType?
    case ObjectParam => !t.IntType? && !t.BooleanType?
    case OtherParam(n) => t == OtherType(n)
  }

  /** The public methods of the assigner: its eight overloads and the ones inherited from Object. */
  const AssignerMethods: seq<MethodSig> := [
    MethodSig("assign", StringParam), MethodSig("assign", FileParam), MethodSig("assign", EnumParam),
    MethodSig("assign", IntParam), MethodSig("assign", BooleanParam), MethodSig("assign", ListParam),
    MethodSig("assign", ArrayParam), MethodSig("assign", ZipParam),
    MethodSig("equals", ObjectParam), MethodSig("wait", OtherParam("long"))]

  /** `getMethod`: the first method named `assign` whose first parameter accepts the field type. */
  function GetMethod(methods: seq<MethodSig>, t: FieldType): (r: Option<MethodSig>)
    ensures r.Some? ==> r.value in methods && r.value.name == "assign" && AssignableFrom(r.value.firstParam, t)
    ensures r.None? <==> forall m :: m in methods ==> m.name != "assign" || !AssignableFrom(m.firstParam, t)
  {
    if methods == [] then None
    else if methods[0].name == "assign" && AssignableFrom(methods[0].firstParam, t) then Some(methods[0])
    else GetMethod(methods[1..], t)
  }

  /** The overload meant for each supported kind of field; None for every other type. */
  function OverloadFor(t: FieldType): (r: Option<ParamType>)
    ensures r.Some? ==> AssignableFrom(r.value, t)
    ensures r.None? <==> t.OtherType?
  {
    match t
    case StringType => Some(StringParam)
    case FileType => Some(FileParam)
    case EnumType(_, _) => Some(EnumParam)
    case IntType => Some(IntParam)
    case BooleanType => Some(BooleanParam)
    case ListType => Some(ListParam)
    case ArrayType => Some(ArrayParam)
    case ZipType => Some(ZipParam)
    case OtherType(_) => None
  }

  /**
   * Whatever order reflection lists the assigner's methods in, getMethod
   * picks the overload meant for the field's kind, and finds none for a
   * type outside the eight supported kinds (a `long` or `Integer` field).
   */
  lemma {:induction false} DispatchIsOrderFree(methods: seq<MethodSig>, t: FieldType)
    requires forall m :: m in methods <==> m in AssignerMethods
    ensures GetMethod(methods, t) == (if t.OtherType? then None else Some(MethodSig("assign", OverloadFor(t).value)))
  {
    var r := GetMethod(methods, t);
    if r.Some? {
      OnlyOverload(r.value, t);
    }
  }

  /** Among the assigner's methods, one overload at most accepts a given field type. */
  lemma OnlyOverload(m: MethodSig, t: FieldType)
    requires m in AssignerMethods && m.name == "assign" && AssignableFrom(m.firstParam, t)
    ensures m == MethodSig("assign", OverloadFor(t).value)
  {
    assert m.firstParam in {StringParam, FileParam, EnumParam, IntParam, BooleanParam, ListParam, ArrayParam, ZipParam};
  }

  /** A value a field can hold after an assignment; Null is Java's null. */
  datatype Value =
    | Null
    | Str(s: string)
    | FileValue(path: string)
    | EnumConstant(constant: string)
    | IntValue(i: int)
    | BoolValue(b: bool)
    | ListValue(items: seq<string>)
    | ArrayValue(elements: seq<string>)
    | ZipValue(zipName: string)

  /** A reflected field: its name, declared type, and whether Field.set may write it. */
  datatype Field = Field(name: string, ftype: FieldType, writable: bool)

  /** What the file system answers: existing paths and, among them, readable zip archives. */
  datatype FileSystem = FileSystem(existing: set<string>, zipArchives: set<string>)

  /** Index of the first enum constant whose toString equals value. */
  function ConstantIndex(constants: seq<string>, value: string): (r: Option<nat>)
    ensures r.Some? ==> r.value < |constants| && constants[r.value] == value
    ensures r.Some? ==> forall j :: 0 <= j < r.value ==> constants[j] != value
    ensures r.None? <==> value !in constants
  {
    if constants == [] then None
    else if constants[0] == value then Some(0)
    else match ConstantIndex(constants[1..], value)
      case None => None
      case Some(j) => Some(j + 1)
  }

  /** The boolean converter: "true" or "false" in any case; anything else is rejected. */
  function ParseBoolean(value: string): (r: Option<bool>)
    ensures r == Some(true) <==> EqualsIgnoreCase(value, "true")
    ensures r == Some(false) <==> EqualsIgnoreCase(value, "false")
    ensures r.None? <==> !EqualsIgnoreCase(value, "true") && !EqualsIgnoreCase(value, "false")
  {
    if EqualsIgnoreCase(value, "true") then Some(true)
    else if EqualsIgnoreCase(value, "false") then Some(false)
    else None
  }

  /** Does a value fit a field of type t (the value Field.set receives from t's overload)? */
  predicate Fits(t: FieldType, v: Value)
  {
    match t
    case StringType => v.Str?
    case FileType => v.FileValue?
    case EnumType(_, constants) => v.EnumConstant? && v.constant in constants
    case IntType => v.IntValue? && InInt32(v.i)
    case BooleanType => v.BoolValue?
    case ListType => v.ListValue?
    case ArrayType => v.ArrayValue?
    case ZipType => v.ZipValue?
    case OtherType(_) => false
  }

  /**
   * The value the overload for a supported field type converts `value` to,
   * or None when the conversion fails (before any write).
   */
  function Converted(t: FieldType, value: string, fs: FileSystem): (r: Option<Value>)
    ensures r.Some? ==> Fits(t, r.value)
    ensures t.StringType? || t.ListType? || t.ArrayType? || (t.BooleanType? && ParseBoolean(value).Some?) ==> r.Some?
    ensures t.FileType? ==> (r.Some? <==> value in fs.existing)
    ensures t.EnumType? ==> (r.Some? <==> value in t.constants)
    ensures t.IntType? ==> (r.Some? <==> ParseInt(value).Some?)
    ensures t.ZipType? ==> (r.Some? <==> value in fs.existing && value in fs.zipArchives)
    ensures t.OtherType? ==> r.None?
  {
    match t
    case StringType => Some(Str(value))
    case FileType => if value in fs.existing then Some(FileValue(value)) else None
    case EnumType(_, constants) =>
      (match ConstantIndex(constants, value)
       case None => None
       case Some(j) => Some(EnumConstant(constants[j])))
    case IntType =>
      (match ParseInt(value)
       case None => None
       case Some(n) => Some(IntValue(n)))
    case BooleanType =>
      (match ParseBoolean(value)
       case None => None
       case Some(b) => Some(BoolValue(b)))
    case ListType => Some(ListValue(Split(value, ',')))
    case ArrayType => Some(ArrayValue(Split(value, ',')))
    case ZipType => if value in fs.existing && value in fs.zipArchives then Some(ZipValue(value)) else None
    case OtherType(_) => None
  }

  /** A list or array value without a comma becomes a single element: the whole value. */
  lemma NoCommaOneElement(value: string)
    requires ',' !in value
    ensures Converted(ListType, value, FileSystem({}, {})) == Some(ListValue([value]))
    ensures Converted(ArrayType, value, FileSystem({}, {})) == Some(ArrayValue([value]))
  {
  }

  /** The comma-separated segments, glued back with commas, are the value minus its trailing commas. */
  lemma {:induction false} ListSegmentsJoin(value: string)
    requires ',' in value
    ensures exists n: nat :: value == JoinWith(Split(value, ','), ',') + Commas(n)
  {
    var ps := Pieces(value, ',');
    PiecesJoin(value, ',');
    var kept := DropTrailingEmpty(ps);
    if kept != [] {
      JoinDroppedEmpty(ps, |kept|);
      assert value == JoinWith(kept, ',') + Commas(|ps| - |kept|);
    } else {
      JoinDroppedEmpty(ps, 1);
      assert ps[..1] == [""];
      assert value == JoinWith(kept, ',') + Commas(|ps| - 1);
    }
  }

  /** n commas. */
  function Commas(n: nat): (r: string)
    ensures |r| == n && forall k :: 0 <= k < n ==> r[k] == ','
  {
    if n == 0 then "" else Commas(n - 1) + ","
  }

  /** Joining xs whose items from m on are empty adds one comma per dropped item. */
  lemma {:induction false} JoinDroppedEmpty(xs: seq<string>, m: nat)
    requires 1 <= m <= |xs|
    requires forall k :: m <= k < |xs| ==> xs[k] == ""
    ensures JoinWith(xs, ',') == JoinWith(xs[..m], ',') + Commas(|xs| - m)
    decreases |xs|
  {
    if m < |xs| {
      var init := xs[..|xs| - 1];
      JoinDroppedEmpty(init, m);
      JoinSnoc(init, "", ',');
      assert init[..m] == xs[..m];
      assert init + [""] == xs;
      assert Commas(|xs| - m) == Commas(|init| - m) + ",";
    } else {
      assert xs[..m] == xs;
    }
  }

  /** Appending one item to a nonempty list adds the separator and the item. */
  lemma {:induction false} JoinSnoc(xs: seq<string>, x: string, c: char)
    requires xs != []
    ensures JoinWith(xs + [x], c) == JoinWith(xs, c) + [c] + x
    decreases |xs|
  {
    if |xs| > 1 {
      JoinSnoc(xs[1..], x, c);
      assert (xs + [x])[1..] == xs[1..] + [x];
    } else {
      assert (xs + [x])[1..] == [x];
    }
  }

  /** The object whose fields are being set; the assigner writes it in place. */
  class Instance {
    var values: map<string, Value>

    constructor(values: map<string, Value>)
      ensures this.values == values
    {
      this.values := values;
    }
  }

  /** `FieldAssignerImpl`: the assigner bound to one instance, with what it prints to standard error. */
  class FieldAssignerImpl {
    const instance: Instance
    var stderr: seq<string>

    /** `FieldAssigner.getInstance(instance)`. */
    constructor(instance: Instance)
      ensures this.instance == instance && stderr == []
    {
      this.instance := instance;
      stderr := [];
    }

    /** The private `assign(field, value)`: Field.set, or false when the field may not be written. */
    method SetField(field: Field, v: Value) returns (ok: bool)
      modifies instance
      ensures ok <==> field.writable
      ensures ok ==> instance.values == old(instance.values)[field.name := v]
      ensures !ok ==> instance.values == old(instance.values)
    {
      if !field.writable {
        return false;
      }
      instance.values := instance.values[field.name := v];
      return true;
    }

    /** String fields take the value verbatim. */
    method AssignString(field: Field, value: string) returns (ok: bool)
      requires field.ftype.StringType?
      modifies instance
      ensures ok <==> field.writable
      ensures ok ==> instance.values == old(instance.values)[field.name := Converted(field.ftype, value, FileSystem({}, {})).value]
      ensures !ok ==> instance.values == old(instance.values)
    {
      ok := SetField(field, Str(value));
    }

    /** File fields take the path only if it exists. */
    method AssignFile(field: Field, value: string, fs: FileSystem) returns (ok: bool)
      requires field.ftype.FileType?
      modifies this, instance
      ensures ok <==> value in fs.existing && field.writable
      ensures ok ==> instance.values == old(instance.values)[field.name := Converted(field.ftype, value, fs).value]
      ensures !ok ==> instance.values == old(instance.values)
      ensures stderr == old(stderr) + (if value in fs.existing then [] else ["Unable to find file: " + value])
    {
      if value !in fs.existing {
        stderr := stderr + ["Unable to find file: " + value];
        return false;
      }
      ok := SetField(field, FileValue(value));
    }

    /** Enum fields take the first constant whose name equals the value. */
    method AssignEnum(field: Field, value: string) returns (ok: bool)
      requires field.ftype.EnumType?
      modifies this, instance
      ensures ok <==> value in field.ftype.constants && field.writable
      ensures ok ==> instance.values == old(instance.values)[field.name := EnumConstant(value)]
      ensures !ok ==> instance.values == old(instance.values)
      ensures stderr == old(stderr) + (if value in field.ftype.constants then [] else
        ["Invalid enum value for enum: class " + field.ftype.className,
         "Value enum values are: " + JavaListString(field.ftype.constants),
         "Found: " + value])
    {
      var constants := field.ftype.constants;
      var i := 0;
      while i < |constants| && constants[i] != value
        invariant 0 <= i <= |constants|
        invariant value !in constants[..i]
      {
        i := i + 1;
      }
      if i == |constants| {
        assert constants[..i] == constants;
        stderr := stderr + ["Invalid enum value for enum: class " + field.ftype.className,
          "Value enum values are: " + JavaListString(constants), "Found: " + value];
        return false;
      }
      ok := SetField(field, EnumConstant(constants[i]));
    }

    /** Int fields take `Integer.valueOf(value)`. */
    method AssignInt(field: Field, value: string) returns (ok: bool)
      requires field.ftype.IntType?
      modifies this, instance
      ensures ok <==> ParseInt(value).Some? && field.writable
      ensures ok ==> instance.values == old(instance.values)[field.name := IntValue(ParseInt(value).value)]
      ensures !ok ==> instance.values == old(instance.values)
      ensures stderr == old(stderr) + (if ParseInt(value).Some? then [] else ["Unable to cast " + value + " to integer"])
    {
      var n := ParseInt(value);
      if n.None? {
        stderr := stderr + ["Unable to cast " + value + " to integer"];
        return false;
      }
      ok := SetField(field, IntValue(n.value));
    }

    /**
     * Boolean fields take "true"/"false" in any case. The result of the write
     * is ignored: a recognised value reports success even when the field
     * could not be written.
     */
    method AssignBoolean(field: Field, value: string) returns (ok: bool)
      requires field.ftype.BooleanType?
      modifies this, instance
      ensures ok <==> ParseBoolean(value).Some?
      ensures ok && field.writable ==> instance.values == old(instance.values)[field.name := BoolValue(ParseBoolean(value).value)]
      ensures !(ok && field.writable) ==> instance.values == old(instance.values)
      ensures stderr == old(stderr) + (if ok then [] else ["Unable to cast " + value + " to boolean"])
    {
      if EqualsIgnoreCase(value, "true") {
        var _ := SetField(field, BoolValue(true));
        return true;
      } else if EqualsIgnoreCase(value, "false") {
        var _ := SetField(field, BoolValue(false));
        return true;
      }
      stderr := stderr + ["Unable to cast " + value + " to boolean"];
      return false;
    }

    /** List fields take the comma-separated segments (Java split: trailing empty segments dropped). */
    method AssignList(field: Field, value: string) returns (ok: bool)
      requires field.ftype.ListType?
      modifies instance
      ensures ok <==> field.writable
      ensures ok ==> instance.values == old(instance.values)[field.name := ListValue(Split(value, ','))]
      ensures !ok ==> instance.values == old(instance.values)
    {
      ok := SetField(field, ListValue(Split(value, ',')));
    }

    /** Array fields take the same segments as an array. */
    method AssignArray(field: Field, value: string) returns (ok: bool)
      requires field.ftype.ArrayType?
      modifies instance
      ensures ok <==> field.writable
      ensures ok ==> instance.values == old(instance.values)[field.name := ArrayValue(Split(value, ','))]
      ensures !ok ==> instance.values == old(instance.values)
    {
      ok := SetField(field, ArrayValue(Split(value, ',')));
    }

    /**
     * Zip fields are given the archive opened from the path. The archive is
     * closed again when the assignment returns, so the field holds a closed
     * archive. A missing file or a non-zip file is reported.
     */
    method AssignZip(field: Field, value: string, fs: FileSystem) returns (ok: bool)
      requires field.ftype.ZipType?
      modifies this, instance
      ensures ok <==> value in fs.existing && value in fs.zipArchives && field.writable
      ensures ok ==> instance.values == old(instance.values)[field.name := ZipValue(value)]
      ensures !ok ==> instance.values == old(instance.values)
      ensures stderr == old(stderr) +
        (if value !in fs.existing then ["IO Exception trying to read zip file"]
         else if value !in fs.zipArchives then ["Invalid zip file found"]
         else [])
    {
      if value !in fs.existing {
        stderr := stderr + ["IO Exception trying to read zip file"];
        return false;
      }
      if value !in fs.zipArchives {
        stderr := stderr + ["Invalid zip file found"];
        return false;
      }
      ok := SetField(field, ZipValue(value));
    }

    /**
     * getMethod followed by invoking the overload found: None when no
     * overload accepts the field type, otherwise the overload's result.
     * Every overload but the boolean one assigns the converted value and
     * reports true, or reports false and leaves the field untouched. The
     * boolean one reports whether the text was "true" or "false", whether
     * or not the write then succeeded.
     */
    method Assign(methods: seq<MethodSig>, field: Field, value: string, fs: FileSystem) returns (r: Option<bool>)
      requires forall m :: m in methods <==> m in AssignerMethods
      modifies this, instance
      ensures r.None? <==> field.ftype.OtherType?
      ensures r == Some(true) && !field.ftype.BooleanType? ==>
        (Converted(field.ftype, value, fs).Some? &&
         instance.values == old(instance.values)[field.name := Converted(field.ftype, value, fs).value])
      ensures r == Some(false) ==> instance.values == old(instance.values)
      ensures !field.ftype.OtherType? && !field.ftype.BooleanType? ==>
        (r == Some(true) <==> Converted(field.ftype, value, fs).Some? && field.writable)
      ensures field.ftype.BooleanType? ==> (r == Some(true) <==> ParseBoolean(value).Some?)
      ensures field.ftype.BooleanType? && r == Some(true) && field.writable ==>
        instance.values == old(instance.values)[field.name := BoolValue(ParseBoolean(value).value)]
      ensures field.ftype.BooleanType? && !field.writable ==> instance.values == old(instance.values)
    {
      DispatchIsOrderFree(methods, field.ftype);
      var m := GetMethod(methods, field.ftype);
      if m.None? {
        return None;
      }
      var ok;
      match field.ftype {
        case StringType => ok := AssignString(field, value);
        case FileType => ok := AssignFile(field, value, fs);
        case EnumType(_, constants) =>
          ok := AssignEnum(field, value);
          if ok {
            var j := ConstantIndex(constants, value).value;
            assert constants[j] == value;
          }
        case IntType => ok := AssignInt(field, value);
        case BooleanType => ok := AssignBoolean(field, value);
        case ListType => ok := AssignList(field, value);
        case ArrayType => ok := AssignArray(field, value);
        case ZipType => ok := AssignZip(field, value, fs);
      }
      r := Some(ok);
    }
  }
}
