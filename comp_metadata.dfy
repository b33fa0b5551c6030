/**
 * Persistent entity metadata kept as scoreboard tags of the form
 * `<plugin>%-%<key>%-%<value>`, with Bukkit metadata as the fallback on
 * servers without scoreboard tags.  The plugin's name is a parameter.
 */
module CompMetadata {
  import opened Wrappers
  import opened Strings

  /** The separator between the plugin name, the key and the value. */
  const DELIMITER: string := "%-%"

  /** `format(key, value)` under the plugin name `named`. */
  function Format(named: string, key: string, value: string): (r: string)
    ensures |r| == |named| + |key| + |value| + 2 * |DELIMITER|
  {
    named + DELIMITER + key + DELIMITER + value
  }

  /**
   * `getTag(raw, key)`: the value, when `raw` splits into exactly three
   * pieces naming this plugin and this key.
   */
  function GetTag(named: string, raw: string, key: string): (r: Option<string>)
    ensures r.Some? ==> |JavaSplit(raw, DELIMITER)| == 3 && r.value == JavaSplit(raw, DELIMITER)[2]
  {
    var parts := JavaSplit(raw, DELIMITER);
    if |parts| == 3 && parts[0] == named && parts[1] == key then Some(parts[2]) else None
  }

  /** `hasTag(raw, key)`: the same shape test, without the value. */
  function HasTag(named: string, raw: string, key: string): (r: bool)
    ensures r <==> GetTag(named, raw, key).Some?
  {
    var parts := JavaSplit(raw, DELIMITER);
    |parts| == 3 && parts[0] == named && parts[1] == key
  }

  /**
   * A tag reads back as its value when no part contains a '%' and the
   * value is not empty (an empty last piece is dropped by the split).
   */
  lemma FormatGetTag(named: string, key: string, value: string)
    requires '%' !in named && '%' !in key && '%' !in value && value != ""
    ensures GetTag(named, Format(named, key, value), key) == Some(value)
  {
    var parts := [named, key, value];
    assert Join(DELIMITER, parts[2..]) == value;
    assert Join(DELIMITER, parts[1..]) == key + DELIMITER + value;
    assert Join(DELIMITER, parts) == Format(named, key, value);
    FirstCharAbsent(named, DELIMITER);
    FirstCharAbsent(key, DELIMITER);
    FirstCharAbsent(value, DELIMITER);
    JavaSplitJoin(parts, DELIMITER);
  }

  /**
   * Keeping the delimiter itself out of the parts is not enough: a name
   * ending in "%-" lends its '%' to the first delimiter.
   */
  lemma DelimiterFreeNotEnough()
    ensures IndexFrom("x%-", DELIMITER, 0) == -1
    ensures GetTag("x%-", Format("x%-", "k", "v"), "k") == None
  {
    var s := Format("x%-", "k", "v");
    assert s == "x%-%-%k%-%v";
    assert s[0..3] == "x%-" && !MatchAt(s, DELIMITER, 0);
    assert s[1..4] == DELIMITER && MatchAt(s, DELIMITER, 1);
    assert IndexFrom(s, DELIMITER, 0) == 1;
    assert RawSplit(s, DELIMITER)[0] == "x";
  }

  /** The tag set with `tag` added if it is not there yet. */
  function AddTag(tags: seq<string>, tag: string): (r: seq<string>)
    ensures forall t :: t in r <==> t in tags || t == tag
    ensures Distinct(tags) ==> Distinct(r)
    ensures tag in tags ==> r == tags
  {
    if tag in tags then tags else tags + [tag]
  }

  predicate Distinct(s: seq<string>) {
    forall i, j :: 0 <= i < j < |s| ==> s[i] != s[j]
  }

  /** Adding a tag twice is adding it once. */
  lemma AddTagIdempotent(tags: seq<string>, tag: string)
    ensures AddTag(AddTag(tags, tag), tag) == AddTag(tags, tag)
  {
  }

  /**
   * The value of the first tag, in iteration order, that parses for `key`
   * to a non-empty value.
   */
  function FirstTag(named: string, tags: seq<string>, key: string): (r: Option<string>)
    ensures r.Some? ==> r.value != "" && exists i :: 0 <= i < |tags| && GetTag(named, tags[i], key) == r
    ensures r.None? <==> forall i :: 0 <= i < |tags| ==> GetTag(named, tags[i], key) in {None, Some("")}
    ensures |tags| > 0 && GetTag(named, tags[0], key) !in {None, Some("")} ==> r == GetTag(named, tags[0], key)
  {
    if tags == [] then None
    else
      var t := GetTag(named, tags[0], key);
      if t.Some? && t.value != "" then t
      else
        var rest := FirstTag(named, tags[1..], key);
        assert forall i :: 0 < i < |tags| ==> tags[i] == tags[1..][i - 1];
        rest
  }

  /** Whether some tag has the plugin's name and `key`, whatever its value. */
  predicate AnyTag(named: string, tags: seq<string>, key: string) {
    exists i :: 0 <= i < |tags| && HasTag(named, tags[i], key)
  }

  /**
   * An entity: its scoreboard tags in iteration order (a set, so without
   * repeats) and its Bukkit metadata.
   */
  class Entity {
    var scoreboardTags: seq<string>
    var metadata: map<string, string>

    ghost predicate Valid()
      reads this
    {
      Distinct(scoreboardTags)
    }

    constructor (tags: seq<string>, metadata: map<string, string>)
      requires Distinct(tags)
      ensures Valid() && scoreboardTags == tags && this.metadata == metadata
    {
      scoreboardTags := tags;
      this.metadata := metadata;
    }

    /**
     * `setMetadata(entity, key, value)`: the formatted tag is added only
     * when absent; without scoreboard tags the Bukkit metadata is set.
     */
    method SetMetadata(named: string, key: string, value: string, hasScoreboardTags: bool)
      requires Valid()
      modifies this
      ensures Valid()
      ensures hasScoreboardTags ==> scoreboardTags == AddTag(old(scoreboardTags), Format(named, key, value))
      ensures hasScoreboardTags ==> metadata == old(metadata)
      ensures !hasScoreboardTags ==> scoreboardTags == old(scoreboardTags)
      ensures !hasScoreboardTags ==> metadata == old(metadata)[key := value]
    {
      if hasScoreboardTags {
        var tag := Format(named, key, value);
        if tag !in scoreboardTags {
          scoreboardTags := scoreboardTags + [tag];
        }
      } else {
        metadata := metadata[key := value];
      }
    }

    /**
     * `getMetadata(entity, key)`: the first non-empty tag value, else the
     * Bukkit metadata passed through `getOrNull` (`Common.getOrNull`).
     */
    method GetMetadata(named: string, key: string, hasScoreboardTags: bool, getOrNull: Option<string> -> Option<string>)
      returns (r: Option<string>)
      ensures hasScoreboardTags && FirstTag(named, scoreboardTags, key).Some? ==> r == FirstTag(named, scoreboardTags, key)
      ensures !(hasScoreboardTags && FirstTag(named, scoreboardTags, key).Some?) ==>
                r == getOrNull(if key in metadata then Some(metadata[key]) else None)
    {
      if hasScoreboardTags {
        var i := 0;
        while i < |scoreboardTags|
          invariant 0 <= i <= |scoreboardTags|
          invariant FirstTag(named, scoreboardTags, key) == FirstTag(named, scoreboardTags[i..], key)
        {
          assert scoreboardTags[i..][1..] == scoreboardTags[i + 1..];
          var tag := GetTag(named, scoreboardTags[i], key);
          if tag.Some? && tag.value != "" {
            return tag;
          }
          i := i + 1;
        }
      }
      var value := if key in metadata then Some(metadata[key]) else None;
      return getOrNull(value);
    }

    /** `hasMetadata(entity, key)`: some tag for the key, else the Bukkit metadata. */
    method HasMetadata(named: string, key: string, hasScoreboardTags: bool) returns (r: bool)
      ensures r <==> (hasScoreboardTags && AnyTag(named, scoreboardTags, key)) || key in metadata
    {
      if hasScoreboardTags {
        var i := 0;
        while i < |scoreboardTags|
          invariant 0 <= i <= |scoreboardTags|
          invariant forall j :: 0 <= j < i ==> !HasTag(named, scoreboardTags[j], key)
        {
          if HasTag(named, scoreboardTags[i], key) {
            return true;
          }
          i := i + 1;
        }
      }
      return key in metadata;
    }
  }

  /** Once set, a scoreboard tag is found again when reading the key back. */
  lemma SetThenHas(named: string, tags: seq<string>, key: string, value: string)
    requires '%' !in named && '%' !in key && '%' !in value && value != ""
    ensures AnyTag(named, AddTag(tags, Format(named, key, value)), key)
  {
    var tag := Format(named, key, value);
    var r := AddTag(tags, tag);
    FormatGetTag(named, key, value);
    var i :| 0 <= i < |r| && r[i] == tag;
    assert HasTag(named, r[i], key);
  }
}
