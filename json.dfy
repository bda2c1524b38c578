/**
 * The generic JSON value of the JSON library the program decodes from,
 * and the exact-match key lookup that its `get(_:)` performs on objects.
 */
module Json {
  import opened Wrappers

  /** Swift's `Int64`, the payload of the library's `.integer` case. */
  newtype int64 = x: int | -0x8000_0000_0000_0000 <= x < 0x8000_0000_0000_0000

  /** A binary64 payload of the `.double` case; its bits are carried, never interpreted. */
  datatype Float64 = Float64(bits: bv64)

  /** A parsed JSON value: a closed tagged union. Objects keep their members in document order. */
  datatype Json =
    | Null
    | Bool(flag: bool)
    | Integer(number: int64)
    | Double(real64: Float64)
    | String(text: string)
    | Array(elements: seq<Json>)
    | Object(members: seq<(string, Json)>)

  /** Some member of `members` has exactly the key `key`. */
  predicate HasMember(members: seq<(string, Json)>, key: string) {
    exists i :: 0 <= i < |members| && members[i].0 == key
  }

  /** Index `i` holds the first member of `members` whose key is exactly `key`. */
  predicate FirstWithKey(members: seq<(string, Json)>, key: string, i: int) {
    0 <= i < |members| && members[i].0 == key && forall j :: 0 <= j < i ==> members[j].0 != key
  }

  /**
   * The value stored under `key`: that of the first member whose key is
   * exactly `key` (no case folding, no aliasing), or None when there is none.
   */
  function Lookup(members: seq<(string, Json)>, key: string): (r: Option<Json>)
    ensures r.None? <==> !HasMember(members, key)
    ensures r.Some? ==> exists i :: FirstWithKey(members, key, i) && members[i].1 == r.value
  {
    if |members| == 0 then None
    else if members[0].0 == key then
      assert FirstWithKey(members, key, 0);
      Some(members[0].1)
    else
      var r := Lookup(members[1..], key);
      assert HasMember(members, key) ==> HasMember(members[1..], key) by {
        if HasMember(members, key) {
          var i :| 0 <= i < |members| && members[i].0 == key;
          assert members[1..][i - 1].0 == key;
        }
      }
      assert r.Some? ==> exists i :: FirstWithKey(members, key, i) && members[i].1 == r.value by {
        if r.Some? {
          var i :| FirstWithKey(members[1..], key, i) && members[1..][i].1 == r.value;
          assert FirstWithKey(members, key, i + 1);
        }
      }
      r
  }

  /** The first member with a given key is unique. */
  lemma FirstWithKeyUnique(members: seq<(string, Json)>, key: string, i: int, j: int)
    requires FirstWithKey(members, key, i) && FirstWithKey(members, key, j)
    ensures i == j
  {
  }
}
