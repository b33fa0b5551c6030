/**
 * A key-value pair stored either as a two-entry map or as a one-line
 * `KEY - VALUE` string.  How keys and values of a given type are printed
 * and parsed is passed in as functions.
 */
module Tuple {
  import opened Wrappers
  import opened Strings
  import SerializedMap

  /** The separator of the one-line form. */
  const SEPARATOR: string := " - "

  datatype Tuple<K, V> = Tuple(key: K, value: V)

  datatype TupleError = BadLineSyntax(line: string)  // `Valid.checkBoolean` on the split

  /**
   * `toLine`, which `toString` returns as well: the printed key and value
   * around the separator.
   */
  function ToLine<K, V>(t: Tuple<K, V>, showKey: K -> string, showValue: V -> string): (r: string)
    ensures |r| == |showKey(t.key)| + |SEPARATOR| + |showValue(t.value)|
    ensures StartsWith(r, showKey(t.key)) && EndsWith(r, showValue(t.value))
    ensures r[|showKey(t.key)|..|showKey(t.key)| + |SEPARATOR|] == SEPARATOR
  {
    showKey(t.key) + SEPARATOR + showValue(t.value)
  }

  /**
   * `deserialize(line, keyType, valueType)`: null stays null, a line that
   * does not split into exactly two pieces on the separator is refused, and
   * otherwise the pieces are parsed as key and value.
   */
  function Deserialize<K, V>(line: Option<string>, parseKey: string -> K, parseValue: string -> V)
    : (r: Result<Option<Tuple<K, V>>, TupleError>)
    ensures line.None? ==> r == Ok(None)
    ensures line.Some? ==> (r.Err? <==> |JavaSplit(line.value, SEPARATOR)| != 2)
    ensures line.Some? && r.Err? ==> r.error == BadLineSyntax(line.value)
    ensures r.Ok? && r.value.Some? ==>
      var parts := JavaSplit(line.value, SEPARATOR);
      r.value.value == Tuple(parseKey(parts[0]), parseValue(parts[1]))
  {
    if line.None? then Ok(None)
    else
      var parts := JavaSplit(line.value, SEPARATOR);
      if |parts| != 2 then Err(BadLineSyntax(line.value))
      else Ok(Some(Tuple(parseKey(parts[0]), parseValue(parts[1]))))
  }

  /**
   * A tuple printed with `toLine` is read back by `deserialize` when the
   * printed key and value hold no '-', the printed value is not empty
   * (the split would drop it), and parsing undoes printing.
   */
  lemma LineRoundTrip<K, V>(t: Tuple<K, V>, showKey: K -> string, showValue: V -> string,
                            parseKey: string -> K, parseValue: string -> V)
    requires '-' !in showKey(t.key) && '-' !in showValue(t.value) && showValue(t.value) != ""
    requires parseKey(showKey(t.key)) == t.key && parseValue(showValue(t.value)) == t.value
    ensures Deserialize(Some(ToLine(t, showKey, showValue)), parseKey, parseValue) == Ok(Some(t))
  {
    var parts := [showKey(t.key), showValue(t.value)];
    assert Join(SEPARATOR, parts) == ToLine(t, showKey, showValue);
    SecondCharAbsent(parts[0], SEPARATOR);
    SecondCharAbsent(parts[1], SEPARATOR);
    JavaSplitJoin(parts, SEPARATOR);
  }

  function Same(s: string): string { s }

  /** A key that itself holds the separator gives a line with three pieces, which is refused. */
  lemma SeparatorInKeyRefused()
    ensures Deserialize(Some(ToLine(Tuple("a - b", "c"), Same, Same)), Same, Same).Err?
  {
    var parts := ["a", "b", "c"];
    var line := ToLine(Tuple("a - b", "c"), Same, Same);
    assert line == Join(SEPARATOR, parts);
    SecondCharAbsent("a", SEPARATOR);
    SecondCharAbsent("b", SEPARATOR);
    SecondCharAbsent("c", SEPARATOR);
    JavaSplitJoin(parts, SEPARATOR);
  }

  /** `serialize`: a map holding exactly "Key" and "Value", in that order. */
  method Serialize(t: Tuple<SerializedMap.Value, SerializedMap.Value>) returns (r: SerializedMap.SMap)
    ensures r.Valid() && fresh(r)
    ensures r.keys == ["Key", "Value"]
    ensures r.entries == map["Key" := t.key, "Value" := t.value]
  {
    var args := [SerializedMap.Text("Key"), t.key, SerializedMap.Text("Value"), t.value];
    var rest := [SerializedMap.Text("Value"), t.value];
    assert args[2..] == rest && rest[2..] == [];
    assert SerializedMap.Insert([], "Key") == ["Key"];
    assert SerializedMap.Insert(["Key"], "Value") == ["Key", "Value"];
    ghost var done := SerializedMap.PutPairs(["Key", "Value"], map["Key" := t.key, "Value" := t.value], []);
    assert done == (["Key", "Value"], map["Key" := t.key, "Value" := t.value], true);
    assert SerializedMap.PutPairs(["Key"], map["Key" := t.key], rest) == done;
    assert SerializedMap.PutPairs([], map[], args) == done;
    var made := SerializedMap.OfArray(args);
    return made.value;
  }
}
