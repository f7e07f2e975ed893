/**
 * The results store a submission carries. Keys are dotted paths such as
 * `structure.missing` or `conformance.a\.B.differs`; the store is a finite
 * map from the full key to a value, updated in place by `set`.
 */
module Results {
  import opened Wrappers
  import opened JavaText

  datatype Value =
    | BoolValue(b: bool)
    | IntValue(n: int)
    | TextValue(s: string)
    | TextList(items: seq<string>)

  /** The stored object's `toString()`. */
  function Text(v: Value): string
  {
    match v
    case BoolValue(b) => BoolToString(b)
    case IntValue(n) => IntToString(n)
    case TextValue(s) => s
    case TextList(items) => JavaListString(items)
  }

  class Data {
    var entries: map<string, Value>

    constructor()
      ensures entries == map[]
    {
      entries := map[];
    }

    /** `set(key, value)`: only that key changes. */
    method Set(key: string, value: Value)
      modifies this
      ensures entries == old(entries)[key := value]
    {
      entries := entries[key := value];
    }

    /** `get(key)`: the stored value, None for Java's null. */
    function Get(key: string): (r: Option<Value>)
      reads this
      ensures r.Some? <==> key in entries
      ensures r.Some? ==> r.value == entries[key]
    {
      if key in entries then Some(entries[key]) else None
    }

    /** `is(key)`: the key holds the boolean true; an absent key or any other value is false. */
    predicate Is(key: string)
      reads this
      ensures Is(key) <==> Get(key) == Some(BoolValue(true))
    {
      key in entries && entries[key] == BoolValue(true)
    }
  }
}
