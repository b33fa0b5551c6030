/**
 * The one-line text forms of locations ("world x y z [yaw pitch]") and of
 * potion effects ("type duration amplifier") and their parsers.  Floating
 * point values are modelled as reals; parsing a float, looking up a world
 * and looking up an effect type are passed in.
 */
module SerializeUtil {
  import opened Wrappers
  import opened Strings

  /** A Bukkit location: the world's name, the coordinates and the two angles. */
  datatype Location = Location(world: string, x: real, y: real, z: real, yaw: real, pitch: real)

  /** A potion effect over some effect type `T`. */
  datatype PotionEffect<T> = PotionEffect(effectType: T, duration: int, amplifier: int)

  /** What is given to a parser: null, an object of the target class, or anything else by its `toString`. */
  datatype Raw<T> = Null | Given(obj: T) | Text(s: string)

  datatype Error =
    | BadLocation(raw: string)       // `Valid.checkBoolean`: neither 4 nor 6 pieces
    | InvalidWorld(world: string)    // `InvalidWorldException`
    | NumberFormat                   // `Integer.parseInt` or `Float.parseFloat` refused a piece
    | BadPotionEffect(raw: string)   // `Valid.checkBoolean`: not 3 pieces
    | NullEffectType                 // the effect constructor refuses a null type

  /** A Java `int` conversion of an integer that saturates at the 32-bit bounds. */
  function Saturate(n: int): (r: int)
    ensures INT_MIN <= r <= INT_MAX
    ensures INT_MIN <= n <= INT_MAX ==> r == n
  {
    if n < INT_MIN then INT_MIN else if n > INT_MAX then INT_MAX else n
  }

  /** `Math.round(float)`: the nearest integer, halves rounded up. */
  function Round(f: real): (r: int)
    ensures INT_MIN <= r <= INT_MAX
    ensures INT_MIN as real <= f <= INT_MAX as real && f == f.Floor as real ==> r == f.Floor
  {
    Saturate((f + 0.5).Floor)
  }

  /** `getBlockX` and its kin: the coordinate rounded down. */
  function Block(v: real): (r: int)
    ensures INT_MIN <= r <= INT_MAX
    ensures INT_MIN as real <= v <= INT_MAX as real ==> r as real <= v < r as real + 1.0
  {
    Saturate(v.Floor)
  }

  /**
   * `serializeLoc`: the world, the block coordinates and, only when one of
   * the angles is not zero, the rounded yaw and pitch, separated by single
   * spaces.
   */
  function SerializeLoc(loc: Location): (r: string)
  {
    Join(" ", LocPieces(loc))
  }

  /** The numbers `serializeLoc` writes: the block coordinates, then the rounded angles unless both are zero. */
  function LocNumbers(loc: Location): (r: seq<int>)
    ensures |r| == 3 || |r| == 5
    ensures |r| == 5 <==> loc.pitch != 0.0 || loc.yaw != 0.0
  {
    var coords := [Block(loc.x), Block(loc.y), Block(loc.z)];
    if loc.pitch != 0.0 || loc.yaw != 0.0 then coords + [Round(loc.yaw), Round(loc.pitch)] else coords
  }

  /** The pieces `serializeLoc` writes for a location: the world's name, then the numbers. */
  function LocPieces(loc: Location): (r: seq<string>)
    ensures |r| == |LocNumbers(loc)| + 1 && r[0] == loc.world
    ensures forall k :: 1 <= k < |r| ==> r[k] == IntToString(LocNumbers(loc)[k - 1])
  {
    var ns := LocNumbers(loc);
    [loc.world] + seq(|ns|, i requires 0 <= i < |ns| => IntToString(ns[i]))
  }

  /** The pieces of a location line: on ", " when it occurs and on single spaces otherwise. */
  function LocationParts(s: string): seq<string> {
    if Contains(s, ", ") then JavaSplit(s, ", ") else JavaSplit(s, " ")
  }

  /**
   * `deserializeLocation`: null stays null and a location is returned as it
   * is; otherwise quotes are removed, the pieces must be 4 or 6, the world
   * must be loaded, x, y and z are parsed as `int`s and the angles as floats,
   * both zero when there are only four pieces.
   */
  function DeserializeLocation(raw: Raw<Location>, worlds: set<string>, parseFloat: string -> Option<real>)
    : (r: Result<Option<Location>, Error>)
    ensures raw.Null? ==> r == Ok(None)
    ensures raw.Given? ==> r == Ok(Some(raw.obj))
    ensures raw.Text? ==>
      var parts := LocationParts(Replace(raw.s, "\"", ""));
      && (r.Err? && r.error.BadLocation? <==> |parts| != 4 && |parts| != 6)
      && (r.Err? && r.error.InvalidWorld? <==> (|parts| == 4 || |parts| == 6) && parts[0] !in worlds)
      && (r.Err? && r.error.InvalidWorld? ==> r.error.world == parts[0])
      && (r.Ok? ==> r.value.Some? && r.value.value.world == parts[0] && r.value.value.world in worlds)
      && (r.Ok? && |parts| == 4 ==> r.value.value.yaw == 0.0 && r.value.value.pitch == 0.0)
  {
    match raw
    case Null => Ok(None)
    case Given(loc) => Ok(Some(loc))
    case Text(text) =>
      var s := Replace(text, "\"", "");
      var parts := LocationParts(s);
      if |parts| != 4 && |parts| != 6 then Err(BadLocation(s))
      else LocationFromParts(parts, worlds, parseFloat)
  }

  /** The checks and conversions after the piece count: the world, then the numbers. */
  function LocationFromParts(parts: seq<string>, worlds: set<string>, parseFloat: string -> Option<real>)
    : Result<Option<Location>, Error>
    requires |parts| == 4 || |parts| == 6
  {
    if parts[0] !in worlds then Err(InvalidWorld(parts[0]))
    else
      var x := ParseInt(parts[1]);
      var y := ParseInt(parts[2]);
      var z := ParseInt(parts[3]);
      var yaw := if |parts| == 6 then parseFloat(parts[4]) else Some(0.0);
      var pitch := if |parts| == 6 then parseFloat(parts[5]) else Some(0.0);
      if x.None? || y.None? || z.None? || yaw.None? || pitch.None? then Err(NumberFormat)
      else Ok(Some(Location(parts[0], x.value as real, y.value as real, z.value as real, yaw.value, pitch.value)))
  }

  /** `serializePotionEffect`: the type's name, the duration and the amplifier, space-separated. */
  function SerializePotionEffect<T>(effect: PotionEffect<T>, nameOf: T -> string): (r: string)
    ensures StartsWith(r, nameOf(effect.effectType) + " ")
  {
    nameOf(effect.effectType) + " " + IntToString(effect.duration) + " " + IntToString(effect.amplifier)
  }

  /**
   * `deserializePotionEffect`: null stays null and an effect is returned as
   * it is; otherwise the text must split into three pieces on spaces, the
   * duration and the amplifier are parsed as `int`s, and a type name
   * `byName` does not know is refused by the effect's constructor.
   */
  function DeserializePotionEffect<T>(raw: Raw<PotionEffect<T>>, byName: string -> Option<T>)
    : (r: Result<Option<PotionEffect<T>>, Error>)
    ensures raw.Null? ==> r == Ok(None)
    ensures raw.Given? ==> r == Ok(Some(raw.obj))
    ensures raw.Text? ==>
      var parts := JavaSplit(raw.s, " ");
      && (|parts| != 3 ==> r == Err(BadPotionEffect(raw.s)))
      && (r.Ok? <==> |parts| == 3 && ParseInt(parts[1]).Some? && ParseInt(parts[2]).Some? && byName(parts[0]).Some?)
      && (r.Ok? ==> r.value == Some(PotionEffect(byName(parts[0]).value, ParseInt(parts[1]).value, ParseInt(parts[2]).value)))
  {
    match raw
    case Null => Ok(None)
    case Given(effect) => Ok(Some(effect))
    case Text(text) =>
      var parts := JavaSplit(text, " ");
      if |parts| != 3 then Err(BadPotionEffect(text))
      else
        var effectType := byName(parts[0]);
        var duration := ParseInt(parts[1]);
        var amplifier := ParseInt(parts[2]);
        if duration.None? || amplifier.None? then Err(NumberFormat)
        else if effectType.None? then Err(NullEffectType)
        else Ok(Some(PotionEffect(effectType.value, duration.value, amplifier.value)))
  }

  /** The printed form of an `int` holds no space, comma or quote. */
  lemma IntToStringPlain(n: int)
    ensures ' ' !in IntToString(n) && ',' !in IntToString(n) && '"' !in IntToString(n)
  {
    var s := IntToString(n);
    assert forall c :: c in s ==> IsDigit(c) || c == '-';
  }

  /**
   * A potion effect written by `serializePotionEffect` reads back as
   * itself, for a type whose name holds no space and is found again by name.
   */
  lemma PotionRoundTrip<T>(effect: PotionEffect<T>, nameOf: T -> string, byName: string -> Option<T>)
    requires ' ' !in nameOf(effect.effectType)
    requires byName(nameOf(effect.effectType)) == Some(effect.effectType)
    requires INT_MIN <= effect.duration <= INT_MAX && INT_MIN <= effect.amplifier <= INT_MAX
    ensures DeserializePotionEffect(Text(SerializePotionEffect(effect, nameOf)), byName) == Ok(Some(effect))
  {
    var parts := [nameOf(effect.effectType), IntToString(effect.duration), IntToString(effect.amplifier)];
    assert Join(" ", parts[1..]) == parts[1] + " " + parts[2];
    assert Join(" ", parts) == SerializePotionEffect(effect, nameOf);
    IntToStringPlain(effect.duration);
    IntToStringPlain(effect.amplifier);
    JoinSplitOnChar(parts, ' ');
    ParseIntToString(effect.duration);
    ParseIntToString(effect.amplifier);
  }

  /** A location on whole blocks with whole angles, within the `int` range. */
  predicate Whole(loc: Location) {
    && loc.x == loc.x.Floor as real && INT_MIN as real <= loc.x <= INT_MAX as real
    && loc.y == loc.y.Floor as real && INT_MIN as real <= loc.y <= INT_MAX as real
    && loc.z == loc.z.Floor as real && INT_MIN as real <= loc.z <= INT_MAX as real
    && loc.yaw == loc.yaw.Floor as real && INT_MIN as real <= loc.yaw <= INT_MAX as real
    && loc.pitch == loc.pitch.Floor as real && INT_MIN as real <= loc.pitch <= INT_MAX as real
  }

  /** No piece holds a space, a comma or a quote when the world name does not. */
  lemma PlainLocPieces(loc: Location)
    requires ' ' !in loc.world && ',' !in loc.world && '"' !in loc.world
    ensures forall k :: 0 <= k < |LocPieces(loc)| ==>
      ' ' !in LocPieces(loc)[k] && ',' !in LocPieces(loc)[k] && '"' !in LocPieces(loc)[k]
  {
    var p := LocPieces(loc);
    forall k | 1 <= k < |p| ensures ' ' !in p[k] && ',' !in p[k] && '"' !in p[k] {
      IntToStringPlain(LocNumbers(loc)[k - 1]);
    }
  }

  /**
   * For a world name without space, comma or quote, the parser sees exactly
   * the pieces that were written: four, or six with the angles.
   */
  lemma SerializeLocPieces(loc: Location)
    requires ' ' !in loc.world && ',' !in loc.world && '"' !in loc.world
    ensures LocationParts(Replace(SerializeLoc(loc), "\"", "")) == LocPieces(loc)
    ensures |LocPieces(loc)| == 4 <==> loc.pitch == 0.0 && loc.yaw == 0.0
  {
    var parts := LocPieces(loc);
    var s := SerializeLoc(loc);
    PlainLocPieces(loc);
    JoinSplitOnChar(parts, ' ');
    JoinAbsent(parts, " ", '"');
    JoinAbsent(parts, " ", ',');
    ReplaceAbsent(s, "\"", "");
    FirstCharAbsent(s, ", ");
  }

  /**
   * A whole location in a loaded world whose name holds no space, comma or
   * quote reads back as itself, when the float parser reads printed
   * integers as themselves.
   */
  lemma LocationRoundTrip(loc: Location, worlds: set<string>, parseFloat: string -> Option<real>)
    requires Whole(loc) && loc.world in worlds
    requires ' ' !in loc.world && ',' !in loc.world && '"' !in loc.world
    requires parseFloat(IntToString(loc.yaw.Floor)) == Some(loc.yaw)
    requires parseFloat(IntToString(loc.pitch.Floor)) == Some(loc.pitch)
    ensures DeserializeLocation(Text(SerializeLoc(loc)), worlds, parseFloat) == Ok(Some(loc))
  {
    SerializeLocPieces(loc);
    WholeNumbers(loc);
    var p := LocPieces(loc);
    assert p[1] == IntToString(loc.x.Floor) && p[2] == IntToString(loc.y.Floor) && p[3] == IntToString(loc.z.Floor);
    assert |p| == 6 ==> p[4] == IntToString(loc.yaw.Floor) && p[5] == IntToString(loc.pitch.Floor);
    ParseIntToString(loc.x.Floor);
    ParseIntToString(loc.y.Floor);
    ParseIntToString(loc.z.Floor);
    assert LocationFromParts(p, worlds, parseFloat) == Ok(Some(loc));
  }

  /** On a whole location the written numbers are the coordinates and angles themselves. */
  lemma WholeNumbers(loc: Location)
    requires Whole(loc)
    ensures var ns := LocNumbers(loc);
      && ns[0] == loc.x.Floor && ns[1] == loc.y.Floor && ns[2] == loc.z.Floor
      && (|ns| == 5 ==> ns[3] == loc.yaw.Floor && ns[4] == loc.pitch.Floor)
  {
  }

  /** A character in no part and not in the delimiter is not in the join. */
  lemma {:induction false} JoinAbsent(parts: seq<string>, d: string, c: char)
    requires c !in d && forall k :: 0 <= k < |parts| ==> c !in parts[k]
    ensures c !in Join(d, parts)
    decreases |parts|
  {
    if |parts| > 1 {
      JoinAbsent(parts[1..], d, c);
      assert c !in parts[0];
    }
  }

  /** Splitting on a character that no part holds undoes the join. */
  lemma JoinSplitOnChar(parts: seq<string>, c: char)
    requires |parts| > 1 && parts[|parts| - 1] != ""
    requires forall k :: 0 <= k < |parts| ==> c !in parts[k]
    ensures JavaSplit(Join([c], parts), [c]) == parts
  {
    forall k | 0 <= k < |parts|
      ensures NoMatchBefore(parts[k] + [c], [c], |parts[k]|) && IndexFrom(parts[k], [c], 0) == -1
    {
      FirstCharAbsent(parts[k], [c]);
    }
    JavaSplitJoin(parts, [c]);
  }

  /** A location in a world that is not loaded is refused with the world's name. */
  lemma UnknownWorldRefused(loc: Location, worlds: set<string>, parseFloat: string -> Option<real>)
    requires loc.world !in worlds
    requires ' ' !in loc.world && ',' !in loc.world && '"' !in loc.world
    ensures DeserializeLocation(Text(SerializeLoc(loc)), worlds, parseFloat) == Err(InvalidWorld(loc.world))
  {
    SerializeLocPieces(loc);
  }
}
