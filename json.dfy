/** JSON values as a handler receives them, with the variant accessors and
    object field lookup. The number conversions are unimplemented in the
    runtime and always answer None. */
module Json {
  import opened Wrappers
  import opened Words
  import Types

  /** `JsonNumber`, without the floating-point variant. */
  datatype JsonNumber = Int(i: i64) | Uint(u: u64) | BigIntNumber(bigInt: Types.BigInt)

  datatype JsonValue =
    | Null
    | Bool(b: bool)
    | Number(n: JsonNumber)
    | String(s: string)
    | Array(items: seq<JsonValue>)
    | Object(pairs: seq<(string, JsonValue)>)
  {
    /** `is_null`. */
    predicate IsNull()
    {
      this.Null?
    }

    /** `as_bool`: Some exactly for a Bool. */
    function AsBool(): (r: Option<bool>)
      ensures r.Some? <==> this.Bool?
      ensures r.Some? ==> this == Bool(r.value)
    {
      match this
      case Bool(b) => Some(b)
      case _ => None
    }

    /** `as_string`: Some exactly for a String. */
    function AsString(): (r: Option<string>)
      ensures r.Some? <==> this.String?
      ensures r.Some? ==> this == String(r.value)
    {
      match this
      case String(s) => Some(s)
      case _ => None
    }

    /** `as_array`: Some exactly for an Array. */
    function AsArray(): (r: Option<seq<JsonValue>>)
      ensures r.Some? <==> this.Array?
      ensures r.Some? ==> this == Array(r.value)
    {
      match this
      case Array(a) => Some(a)
      case _ => None
    }

    /** `as_object`: Some exactly for an Object. */
    function AsObject(): (r: Option<seq<(string, JsonValue)>>)
      ensures r.Some? <==> this.Object?
      ensures r.Some? ==> this == Object(r.value)
    {
      match this
      case Object(o) => Some(o)
      case _ => None
    }

    /** `get(key)`: on an Object, the value of the first pair with that key;
        None when no key matches or the value is not an Object. */
    function Get(key: string): (r: Option<JsonValue>)
      ensures r.Some? <==> this.Object? && exists i :: 0 <= i < |pairs| && pairs[i].0 == key
    {
      match this
      case Object(o) => FindFirst(o, key)
      case _ => None
    }
  }

  /** The four variant accessors all answer None exactly for `Null` and
      for a number: `is_null` picks out one of the two. */
  lemma AccessorsNone(v: JsonValue)
    ensures v.AsBool().None? && v.AsString().None? && v.AsArray().None? && v.AsObject().None?
      <==> v.IsNull() || v.Number?
  {
  }

  /** Index i holds the first pair whose key is `key`. */
  ghost predicate FirstMatch(pairs: seq<(string, JsonValue)>, key: string, i: nat)
  {
    i < |pairs| && pairs[i].0 == key && forall j :: 0 <= j < i ==> pairs[j].0 != key
  }

  /** `iter().find(|(k, _)| k == key).map(|(_, v)| v)`. */
  function FindFirst(pairs: seq<(string, JsonValue)>, key: string): (r: Option<JsonValue>)
    ensures r.Some? <==> exists i :: 0 <= i < |pairs| && pairs[i].0 == key
  {
    if |pairs| == 0 then None
    else if pairs[0].0 == key then Some(pairs[0].1)
    else
      assert forall i :: 1 <= i < |pairs| ==> pairs[i] == pairs[1..][i - 1];
      FindFirst(pairs[1..], key)
  }

  /** What `find` returns is the value of the first pair with the key. */
  lemma {:induction false} FindFirstIsFirst(pairs: seq<(string, JsonValue)>, key: string)
    ensures FindFirst(pairs, key).Some? ==>
      exists i: nat :: FirstMatch(pairs, key, i) && FindFirst(pairs, key).value == pairs[i].1
  {
    if |pairs| > 0 {
      if pairs[0].0 == key {
        assert FirstMatch(pairs, key, 0);
      } else {
        FindFirstIsFirst(pairs[1..], key);
        if FindFirst(pairs[1..], key).Some? {
          var i: nat :| FirstMatch(pairs[1..], key, i) && FindFirst(pairs[1..], key).value == pairs[1..][i].1;
          assert forall j :: 1 <= j < |pairs| ==> pairs[j] == pairs[1..][j - 1];
          assert FirstMatch(pairs, key, i + 1);
        }
      }
    }
  }

  /** `get` on an Object answers with the first pair carrying the key. */
  lemma GetIsFirstMatch(v: JsonValue, key: string)
    ensures v.Get(key).Some? ==> exists i: nat :: FirstMatch(v.pairs, key, i) && v.Get(key).value == v.pairs[i].1
  {
    if v.Object? {
      FindFirstIsFirst(v.pairs, key);
    }
  }

  /** The first match wins: a pair in front shadows every later pair with
      the same key. */
  lemma GetFirstWins(key: string, v: JsonValue, rest: seq<(string, JsonValue)>)
    ensures Object([(key, v)] + rest).Get(key) == Some(v)
  {
  }

  /** `to_i64`: not implemented; None for every input. */
  function ToI64(value: JsonValue): (r: Option<i64>)
    ensures r.None?
  {
    None
  }

  /** `to_u64`: not implemented; None for every input. */
  function ToU64(value: JsonValue): (r: Option<u64>)
    ensures r.None?
  {
    None
  }

  /** `to_big_int`: not implemented; None for every input. */
  function ToBigInt(value: JsonValue): (r: Option<Types.BigInt>)
    ensures r.None?
  {
    None
  }
}
