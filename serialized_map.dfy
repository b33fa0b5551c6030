/**
 * A string-keyed map of configuration values with strict insertion: `put`
 * refuses null values and keys already present, `override` replaces, and
 * `mergeFrom` only fills in what is missing.  Entries are kept in the
 * order they were first inserted.
 */
module SerializedMap {
  import opened Wrappers
  import opened Strings

  /** A stored value; `Null` is Java's null. */
  datatype Value =
    | Null
    | Bool(b: bool)
    | Int(i: int)
    | Text(s: string)
    | List(items: seq<Value>)
    | Dict(d: map<string, Value>)
    | Serialized(m: SMap)

  datatype Error =
    | NullValue(key: string)       // `Valid.checkNotNull` on the value
    | DuplicateKey(key: string)    // strict put of a key already present
    | KeyNotAString                // the `(String)` cast in `putArray`
    | NotAJsonObject(json: string) // `fromJson` on anything but an object

  predicate Distinct(s: seq<string>) {
    forall i, j :: 0 <= i < j < |s| ==> s[i] != s[j]
  }

  /** The key order after storing `key`: a new key goes last, an existing one keeps its place. */
  function Insert(keys: seq<string>, key: string): (r: seq<string>)
    ensures Distinct(keys) ==> Distinct(r)
    ensures forall k :: k in r <==> k in keys || k == key
  {
    if key in keys then keys else keys + [key]
  }

  /**
   * `putArray` on a key order and entries: the arguments are read as
   * alternating key and value, each pair overriding; a key argument that is
   * not a string stops it with the pairs before it applied, and an odd
   * trailing key is dropped.  The flag says whether it got through.
   */
  function PutPairs(keys: seq<string>, entries: map<string, Value>, args: seq<Value>)
    : (r: (seq<string>, map<string, Value>, bool))
    ensures r.2 <==> forall i :: 0 <= i < |args| && i % 2 == 0 ==> args[i].Text?
    decreases |args|
  {
    if args == [] then (keys, entries, true)
    else if !args[0].Text? then (keys, entries, false)
    else if |args| == 1 then (keys, entries, true)
    else
      var rest := PutPairs(Insert(keys, args[0].s), entries[args[0].s := args[1]], args[2..]);
      assert forall i :: 2 <= i < |args| ==> args[i] == args[2..][i - 2] && (i % 2 == 0 <==> (i - 2) % 2 == 0);
      rest
  }

  /** At a key position: a string key waits for its value, anything else stops the loading. */
  lemma PutPairsKeyAt(keys: seq<string>, entries: map<string, Value>, args: seq<Value>, i: nat)
    requires i < |args|
    ensures !args[i].Text? ==> PutPairs(keys, entries, args[i..]) == (keys, entries, false)
    ensures args[i].Text? ==>
      PutPairs(keys, entries, args[i..]) == PutPairs(keys, entries, [Text(args[i].s)] + args[i + 1..])
  {
    var p := [args[i]] + args[i + 1..];
    assert args[i..] == p;
  }

  /** At a value position: the pending pair is stored, then the rest follow. */
  lemma PutPairsValueAt(keys: seq<string>, entries: map<string, Value>, k: string, args: seq<Value>, i: nat)
    requires i < |args|
    ensures PutPairs(keys, entries, [Text(k)] + args[i..])
      == PutPairs(Insert(keys, k), entries[k := args[i]], args[i + 1..])
  {
    var p := [Text(k)] + args[i..];
    assert p[1] == args[i] && p[2..] == args[i + 1..];
  }

  /** The value of the last complete pair in `args` whose key is `k`. */
  function PairValue(args: seq<Value>, k: string): Option<Value>
    decreases |args|
  {
    if |args| < 2 then None
    else
      var later := PairValue(args[2..], k);
      if later.Some? then later
      else if args[0] == Text(k) then Some(args[1])
      else None
  }

  /**
   * When `putArray` gets through, every key ends with the value of its last
   * pair; a key without a complete pair keeps whatever it had, so an odd
   * trailing key changes nothing.
   */
  lemma {:induction false} PutPairsLast(keys: seq<string>, entries: map<string, Value>, args: seq<Value>, k: string)
    requires PutPairs(keys, entries, args).2
    ensures var r := PutPairs(keys, entries, args);
      && (PairValue(args, k).Some? ==> k in r.1 && r.1[k] == PairValue(args, k).value)
      && (PairValue(args, k).None? ==> (k in r.1 <==> k in entries) && (k in entries ==> r.1[k] == entries[k]))
    decreases |args|
  {
    if |args| >= 2 {
      assert args[0].Text? by {
        assert 0 % 2 == 0;
      }
      PutPairsLast(Insert(keys, args[0].s), entries[args[0].s := args[1]], args[2..], k);
    }
  }

  class SMap {
    /** The keys in iteration order. */
    var keys: seq<string>
    var entries: map<string, Value>

    /** The key order lists each key of the entries exactly once. */
    ghost predicate Valid()
      reads this
    {
      Distinct(keys) && forall k :: k in entries <==> k in keys
    }

    /** `new SerializedMap()`. */
    constructor ()
      ensures Valid() && keys == [] && entries == map[]
    {
      keys := [];
      entries := map[];
    }

    /** The underlying map's unchecked store: replace or append. */
    method Store(key: string, value: Value)
      requires Valid()
      modifies this
      ensures Valid()
      ensures entries == old(entries)[key := value] && keys == Insert(old(keys), key)
    {
      keys := Insert(keys, key);
      entries := entries[key := value];
    }

    /** `put(key, value)`: fails on a null value or a key already present. */
    method Put(key: string, value: Value) returns (r: Result<(), Error>)
      requires Valid()
      modifies this
      ensures Valid()
      ensures r == if value.Null? then Err(NullValue(key))
        else if key in old(entries) then Err(DuplicateKey(key)) else Ok(())
      ensures r.Ok? ==> entries == old(entries)[key := value] && keys == old(keys) + [key]
      ensures r.Err? ==> entries == old(entries) && keys == old(keys)
    {
      if value.Null? {
        return Err(NullValue(key));
      }
      if key in entries {
        return Err(DuplicateKey(key));
      }
      Store(key, value);
      return Ok(());
    }

    /** `override(key, value)`: fails on a null value, otherwise replaces or adds. */
    method Override(key: string, value: Value) returns (r: Result<(), Error>)
      requires Valid()
      modifies this
      ensures Valid()
      ensures r.Ok? <==> !value.Null?
      ensures r.Ok? ==> entries == old(entries)[key := value] && keys == Insert(old(keys), key)
      ensures r.Err? ==> r == Err(NullValue(key)) && entries == old(entries) && keys == old(keys)
    {
      if value.Null? {
        return Err(NullValue(key));
      }
      Store(key, value);
      return Ok(());
    }

    /** `putIfTrue`: only `true` is put. */
    method PutIfTrue(key: string, value: bool) returns (r: Result<(), Error>)
      requires Valid()
      modifies this
      ensures Valid()
      ensures !value ==> r.Ok? && entries == old(entries) && keys == old(keys)
      ensures value ==> r.Ok? == (key !in old(entries))
      ensures r.Ok? && value ==> entries == old(entries)[key := Bool(true)] && keys == old(keys) + [key]
      ensures r.Err? ==> entries == old(entries) && keys == old(keys)
    {
      r := Ok(());
      if value {
        r := Put(key, Bool(value));
      }
    }

    /** `putIfExist`: only a non-null value is put. */
    method PutIfExist(key: string, value: Value) returns (r: Result<(), Error>)
      requires Valid()
      modifies this
      ensures Valid()
      ensures value.Null? ==> r.Ok? && entries == old(entries) && keys == old(keys)
      ensures !value.Null? ==> r.Ok? == (key !in old(entries))
      ensures r.Ok? && !value.Null? ==> entries == old(entries)[key := value] && keys == old(keys) + [key]
      ensures r.Err? ==> entries == old(entries) && keys == old(keys)
    {
      r := Ok(());
      if !value.Null? {
        r := Put(key, value);
      }
    }

    /**
     * The `putIf` overloads, after each has decided whether its value is
     * worth keeping: a kept value is `put`; otherwise the key is mapped to
     * null directly in the underlying map, replacing what it held.
     */
    method PutOrNull(key: string, value: Value, keep: bool) returns (r: Result<(), Error>)
      requires Valid() && (keep ==> !value.Null?)
      modifies this
      ensures Valid()
      ensures !keep ==> r.Ok? && entries == old(entries)[key := Null] && keys == Insert(old(keys), key)
      ensures keep ==> r.Ok? == (key !in old(entries))
      ensures keep && r.Ok? ==> entries == old(entries)[key := value] && keys == old(keys) + [key]
      ensures r.Err? ==> entries == old(entries) && keys == old(keys)
    {
      if keep {
        r := Put(key, value);
      } else {
        Store(key, Null);
        r := Ok(());
      }
    }

    /** `putIf(String, Map)`: kept when the map is non-null and non-empty. */
    method PutIfMap(key: string, value: Option<map<string, Value>>) returns (r: Result<(), Error>)
      requires Valid()
      modifies this
      ensures Valid()
      ensures value.None? || value.value == map[] ==>
        r.Ok? && entries == old(entries)[key := Null] && keys == Insert(old(keys), key)
      ensures value.Some? && value.value != map[] ==>
        (r.Ok? <==> key !in old(entries))
        && (r.Ok? ==> entries == old(entries)[key := Dict(value.value)] && keys == old(keys) + [key])
      ensures r.Err? ==> entries == old(entries) && keys == old(keys)
    {
      var keep := value.Some? && value.value != map[];
      r := PutOrNull(key, if keep then Dict(value.value) else Null, keep);
    }

    /** `putIf(String, Collection)`: kept when the collection is non-null and non-empty. */
    method PutIfCollection(key: string, value: Option<seq<Value>>) returns (r: Result<(), Error>)
      requires Valid()
      modifies this
      ensures Valid()
      ensures value.None? || value.value == [] ==>
        r.Ok? && entries == old(entries)[key := Null] && keys == Insert(old(keys), key)
      ensures value.Some? && value.value != [] ==>
        (r.Ok? <==> key !in old(entries))
        && (r.Ok? ==> entries == old(entries)[key := List(value.value)] && keys == old(keys) + [key])
      ensures r.Err? ==> entries == old(entries) && keys == old(keys)
    {
      var keep := value.Some? && value.value != [];
      r := PutOrNull(key, if keep then List(value.value) else Null, keep);
    }

    /** `putIf(String, boolean)`: kept when true; false maps the key to null. */
    method PutIfBool(key: string, value: bool) returns (r: Result<(), Error>)
      requires Valid()
      modifies this
      ensures Valid()
      ensures !value ==> r.Ok? && entries == old(entries)[key := Null] && keys == Insert(old(keys), key)
      ensures value ==> (r.Ok? <==> key !in old(entries))
      ensures value && r.Ok? ==> entries == old(entries)[key := Bool(true)] && keys == old(keys) + [key]
      ensures r.Err? ==> entries == old(entries) && keys == old(keys)
    {
      r := PutOrNull(key, Bool(value), value);
    }

    /** `putIf(String, Object)`: kept when non-null. */
    method PutIfObject(key: string, value: Value) returns (r: Result<(), Error>)
      requires Valid()
      modifies this
      ensures Valid()
      ensures value.Null? ==> r.Ok? && entries == old(entries)[key := Null] && keys == Insert(old(keys), key)
      ensures !value.Null? ==> (r.Ok? <==> key !in old(entries))
      ensures !value.Null? && r.Ok? ==> entries == old(entries)[key := value] && keys == old(keys) + [key]
      ensures r.Err? ==> entries == old(entries) && keys == old(keys)
    {
      r := PutOrNull(key, value, !value.Null?);
    }

    /**
     * `mergeFrom`: the other map's non-null entries under keys this map
     * lacks are added; every key already here keeps its value.
     */
    method MergeFrom(other: SMap)
      requires Valid() && other.Valid()
      modifies this
      ensures Valid()
      ensures forall k :: k in entries <==>
        k in old(entries) || (k in old(other.entries) && !old(other.entries)[k].Null?)
      ensures forall k :: k in old(entries) ==> entries[k] == old(entries)[k]
      ensures forall k :: k in entries && k !in old(entries) ==> entries[k] == old(other.entries)[k]
    {
      var otherKeys := other.keys;
      var otherEntries := other.entries;
      var i := 0;
      while i < |otherKeys|
        invariant 0 <= i <= |otherKeys|
        invariant Valid()
        invariant forall k :: k in entries <==>
          k in old(entries) || (k in otherKeys[..i] && !otherEntries[k].Null?)
        invariant forall k :: k in old(entries) ==> entries[k] == old(entries)[k]
        invariant forall k :: k in entries && k !in old(entries) ==> entries[k] == otherEntries[k]
      {
        var key := otherKeys[i];
        var value := otherEntries[key];
        if !value.Null? && key !in entries {
          Store(key, value);
        }
        assert otherKeys[..i + 1] == otherKeys[..i] + [key];
        i := i + 1;
      }
      assert otherKeys[..i] == otherKeys;
    }

    /** `putArray`: alternating keys and values, each pair stored with the underlying map's override. */
    method PutArray(args: seq<Value>) returns (r: Result<(), Error>)
      requires Valid()
      modifies this
      ensures Valid()
      ensures (keys, entries, r.Ok?) == PutPairs(old(keys), old(entries), args)
      ensures r.Err? ==> r == Err(KeyNotAString)
    {
      var expectKey := true;
      var lastKey := "";
      var i := 0;
      while i < |args|
        invariant 0 <= i <= |args|
        invariant Valid()
        invariant PutPairs(keys, entries, if expectKey then args[i..] else [Text(lastKey)] + args[i..])
          == PutPairs(old(keys), old(entries), args)
      {
        var obj := args[i];
        if expectKey {
          PutPairsKeyAt(keys, entries, args, i);
          if !obj.Text? {
            return Err(KeyNotAString);
          }
          lastKey := obj.s;
        } else {
          PutPairsValueAt(keys, entries, lastKey, args, i);
          Store(lastKey, obj);
        }
        expectKey := !expectKey;
        i := i + 1;
      }
      assert args[i..] == [];
      return Ok(());
    }

    /** The first key, in iteration order, equal to `key` ignoring case. */
    function FindIgnoreCase(ks: seq<string>, key: string): (r: Option<string>)
      ensures r.None? <==> forall k :: k in ks ==> !EqualsIgnoreCase(k, key)
      ensures r.Some? ==> r.value in ks && EqualsIgnoreCase(r.value, key)
    {
      if ks == [] then None
      else if EqualsIgnoreCase(ks[0], key) then Some(ks[0])
      else FindIgnoreCase(ks[1..], key)
    }

    /** `getValueIgnoreCase`: the value under a key equal to `key` ignoring case, or null when there is none. */
    function GetValueIgnoreCase(key: string): (r: Option<Value>)
      requires Valid()
      reads this
      ensures r.None? <==> forall k :: k in entries ==> !EqualsIgnoreCase(k, key)
      ensures r.Some? ==> exists k :: k in entries && EqualsIgnoreCase(k, key) && entries[k] == r.value
    {
      var found := FindIgnoreCase(keys, key);
      if found.None? then None else Some(entries[found.value])
    }
  }

  /** `SerializedMap.of(Map)`: a fresh map holding exactly the given entries. */
  method OfMap(d: map<string, Value>) returns (r: SMap)
    ensures fresh(r) && r.Valid() && r.entries == d
  {
    r := new SMap();
    var rest := d.Keys;
    while rest != {}
      invariant r.Valid() && fresh(r)
      invariant rest <= d.Keys
      invariant forall k :: k in r.entries <==> k in d && k !in rest
      invariant forall k :: k in r.entries ==> r.entries[k] == d[k]
      decreases rest
    {
      var k :| k in rest;
      r.Store(k, d[k]);
      rest := rest - {k};
    }
  }

  /**
   * `ofArray`: a single serialized map is returned as it is, a single map is
   * copied, and anything else is loaded with `putArray` into a fresh map.
   */
  method OfArray(args: seq<Value>) returns (r: Result<SMap, Error>)
    ensures |args| == 1 && args[0].Serialized? ==> r == Ok(args[0].m)
    ensures |args| == 1 && args[0].Dict? ==>
      r.Ok? && fresh(r.value) && r.value.Valid() && r.value.entries == args[0].d
    ensures !(|args| == 1 && (args[0].Serialized? || args[0].Dict?)) ==>
      var p := PutPairs([], map[], args);
      && (r.Ok? <==> p.2)
      && (r.Ok? ==> fresh(r.value) && r.value.Valid() && r.value.keys == p.0 && r.value.entries == p.1)
  {
    if |args| == 1 {
      var first := args[0];
      if first.Serialized? {
        return Ok(first.m);
      }
      if first.Dict? {
        var m := OfMap(first.d);
        return Ok(m);
      }
    }
    var m := new SMap();
    var loaded := m.PutArray(args);
    if loaded.Err? {
      return Err(loaded.error);
    }
    return Ok(m);
  }

  /**
   * What Gson's `JsonParser.parse` yields for a well-formed text: an object
   * with its members, or any other JSON element.  Malformed text, which
   * makes the parser throw, is `None` in the `parse` parameters below.
   */
  datatype JsonElement = JsonObject(members: map<string, Value>) | OtherElement

  /**
   * The run-time classes `of(Object)` tells apart: a serialized map, a
   * `java.util.Map`, and anything else, such as a Gson `JsonObject`, which
   * implements neither.
   */
  datatype Obj = SerializedObj(entries: map<string, Value>) | MapObj(entries: map<string, Value>) | OtherObj

  /** The entries of the map `of(Object)` returns. */
  function OfObjectEntries(o: Obj): (r: map<string, Value>)
    ensures o.SerializedObj? || o.MapObj? ==> r == o.entries
    ensures o.OtherObj? ==> r == map[]
  {
    match o
    case SerializedObj(e) => e
    case MapObj(e) => e
    case OtherObj => map[]
  }

  /**
   * `fromJson` as written: a parsed object is handed to `of(Object)`, where
   * a Gson `JsonObject` is neither a `Map` nor a `MemorySection`, so it
   * falls through to an empty map.
   */
  method FromJsonAsWritten(json: string, parse: string -> Option<JsonElement>) returns (r: Result<SMap, Error>)
    ensures json == "" || json == "[]" || json == "{}" ==>
      r.Ok? && fresh(r.value) && r.value.Valid() && r.value.entries == map[]
    ensures !(json == "" || json == "[]" || json == "{}") ==>
      && (r.Ok? <==> parse(json).Some? && parse(json).value.JsonObject?)
      && (r.Ok? ==> fresh(r.value) && r.value.Valid() && r.value.entries == OfObjectEntries(OtherObj))
      && (r.Err? ==> r == Err(NotAJsonObject(json)))
  {
    if json == "" || json == "[]" || json == "{}" {
      var m := new SMap();
      return Ok(m);
    }
    var parsed := parse(json);
    if parsed.None? || !parsed.value.JsonObject? {
      return Err(NotAJsonObject(json));
    }
    var m := OfMap(OfObjectEntries(OtherObj));
    return Ok(m);
  }

  /**
   * As written, every member of a parsed object is lost: a non-empty object
   * gives back a map that differs from it.
   */
  lemma ObjectMembersLost(members: map<string, Value>)
    requires members != map[]
    ensures OfObjectEntries(OtherObj) != members
    ensures OfObjectEntries(MapObj(members)) == members
  {
  }

  /**
   * `fromJson`, corrected to keep what it parses: the empty string, "[]"
   * and "{}" give an empty map; a JSON object gives a map of exactly its
   * members; anything else, malformed text included, is an error (the
   * source reports it and returns null).
   */
  method FromJson(json: string, parse: string -> Option<JsonElement>) returns (r: Result<SMap, Error>)
    ensures json == "" || json == "[]" || json == "{}" ==>
      r.Ok? && fresh(r.value) && r.value.Valid() && r.value.entries == map[]
    ensures !(json == "" || json == "[]" || json == "{}") ==>
      && (r.Ok? <==> parse(json).Some? && parse(json).value.JsonObject?)
      && (r.Ok? ==> fresh(r.value) && r.value.Valid() && r.value.entries == parse(json).value.members)
      && (r.Err? ==> r == Err(NotAJsonObject(json)))
  {
    if json == "" || json == "[]" || json == "{}" {
      var m := new SMap();
      return Ok(m);
    }
    var parsed := parse(json);
    if parsed.None? || !parsed.value.JsonObject? {
      return Err(NotAJsonObject(json));
    }
    var m := OfMap(OfObjectEntries(MapObj(parsed.value.members)));
    return Ok(m);
  }
}
