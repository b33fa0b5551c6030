/**
 * The table between potion effect names players know and the Bukkit
 * constant names, with the lookups in both directions.  `WordUtils.capitalizeFully`
 * is a parameter.
 */
module PotionWrapper {
  import opened Wrappers
  import opened Strings

  datatype Potion = SLOW | STRENGTH | JUMP_BOOST | INSTANT_HEAL | REGEN

  /** `values()`: the constants in declaration order. */
  const VALUES: seq<Potion> := [SLOW, STRENGTH, JUMP_BOOST, INSTANT_HEAL, REGEN]

  /** `name()` and `toString()`: the constant's own name. */
  function Name(p: Potion): string {
    match p
    case SLOW => "SLOW"
    case STRENGTH => "STRENGTH"
    case JUMP_BOOST => "JUMP_BOOST"
    case INSTANT_HEAL => "INSTANT_HEAL"
    case REGEN => "REGEN"
  }

  /** The `bukkitName` field each constant is declared with. */
  function BukkitName(p: Potion): string {
    match p
    case SLOW => "SLOW"
    case STRENGTH => "INCREASE_DAMAGE"
    case JUMP_BOOST => "JUMP"
    case INSTANT_HEAL => "INSTANT_HEALTH"
    case REGEN => "REGENERATION"
  }

  /** The `minecraftName` field: only SLOW declares one, the one-argument constructor passes null. */
  function MinecraftField(p: Potion): Option<string> {
    if p == SLOW then Some("Slowness") else None
  }

  /** `getMinecraftName`: the Minecraft name, or the Bukkit name when there is none. */
  function GetMinecraftName(p: Potion): (r: string)
    ensures MinecraftField(p).Some? ==> r == MinecraftField(p).value
    ensures MinecraftField(p).None? ==> r == BukkitName(p)
  {
    if MinecraftField(p).Some? then MinecraftField(p).value else BukkitName(p)
  }

  /** Only SLOW shows a name of its own; every other potion shows its Bukkit name. */
  lemma MinecraftNameOnlySlow(p: Potion)
    ensures GetMinecraftName(p) != BukkitName(p) <==> p == SLOW
    ensures GetMinecraftName(SLOW) == "Slowness"
  {
    if p == SLOW {
      assert |GetMinecraftName(p)| != |BukkitName(p)|;
    }
  }

  /** The test of `getBukkitName`: the constant's name or its Minecraft name, ignoring case. */
  predicate Matches(p: Potion, n: string) {
    || EqualsIgnoreCase(Name(p), n)
    || (MinecraftField(p).Some? && EqualsIgnoreCase(MinecraftField(p).value, n))
  }

  /** The first constant in `ps` that `Matches` the normalised name. */
  function FindMatch(ps: seq<Potion>, n: string): (r: Option<Potion>)
    ensures r.Some? ==> r.value in ps && Matches(r.value, n)
    ensures r.None? ==> forall i :: 0 <= i < |ps| ==> !Matches(ps[i], n)
  {
    if ps == [] then None
    else if Matches(ps[0], n) then Some(ps[0])
    else FindMatch(ps[1..], n)
  }

  /** The first constant in `ps` whose Bukkit name is `n`. */
  function FindByBukkit(ps: seq<Potion>, n: string): (r: Option<Potion>)
    ensures r.Some? ==> r.value in ps && BukkitName(r.value) == n
    ensures r.None? ==> forall i :: 0 <= i < |ps| ==> BukkitName(ps[i]) != n
  {
    if ps == [] then None
    else if BukkitName(ps[0]) == n then Some(ps[0])
    else FindByBukkit(ps[1..], n)
  }

  /**
   * `getBukkitName(String)`: the Bukkit name of the first constant whose
   * name or Minecraft name equals the normalised input ignoring case, or the
   * normalised input itself.
   */
  function GetBukkitName(name: string): (r: string)
  {
    var n := Normalize(name);
    var found := FindMatch(VALUES, n);
    if found.Some? then BukkitName(found.value) else n
  }

  /**
   * `getLocalizedName`: the Minecraft name of the constant whose Bukkit name
   * is the normalised input, or the input as given; then underscores become
   * spaces and the words are capitalised.
   */
  function GetLocalizedName(name: string, capitalizeFully: string -> string): (r: string)
  {
    var found := FindByBukkit(VALUES, Normalize(name));
    var localized := if found.Some? then GetMinecraftName(found.value) else name;
    capitalizeFully(MapChar(localized, '_', ' '))
  }

  /** Two texts of different lengths never match ignoring case. */
  lemma LengthsDiffer(a: string, b: string)
    ensures |a| != |b| ==> !EqualsIgnoreCase(a, b)
  {
  }

  /** Texts that differ ignoring case at one index do not match. */
  lemma DifferAt(a: string, b: string, i: int)
    requires 0 <= i < |a| && 0 <= i < |b|
    ensures LowerChar(a[i]) != LowerChar(b[i]) ==> !EqualsIgnoreCase(a, b)
  {
    if LowerChar(a[i]) != LowerChar(b[i]) {
      assert ToLower(a)[i] != ToLower(b)[i];
    }
  }

  /** Only a constant's own name matches it among the constant names and the Minecraft name. */
  lemma MatchesName(q: Potion, p: Potion)
    ensures Matches(q, Name(p)) <==> q == p
  {
    assert EqualsIgnoreCase(Name(p), Name(p));
    LengthsDiffer(Name(q), Name(p));
    if MinecraftField(q).Some? {
      LengthsDiffer(MinecraftField(q).value, Name(p));
      DifferAt(MinecraftField(q).value, Name(p), 1);
    }
  }

  /** `getBukkitName` of anything that normalises to a constant's name gives its Bukkit name. */
  lemma BukkitOfName(name: string, p: Potion)
    requires Normalize(name) == Name(p)
    ensures GetBukkitName(name) == BukkitName(p)
  {
    var found := FindMatch(VALUES, Name(p));
    if found.Some? {
      MatchesName(found.value, p);
    } else {
      MatchesName(p, p);
      InValues(p);
    }
  }

  /** Every constant is at some index of `values()`. */
  lemma InValues(p: Potion)
    ensures exists i :: 0 <= i < |VALUES| && VALUES[i] == p
  {
    match p
    case SLOW => assert VALUES[0] == p;
    case STRENGTH => assert VALUES[1] == p;
    case JUMP_BOOST => assert VALUES[2] == p;
    case INSTANT_HEAL => assert VALUES[3] == p;
    case REGEN => assert VALUES[4] == p;
  }

  /**
   * A Bukkit name matches only its own constant, or a constant with the same
   * Bukkit name, so `getBukkitName` passes Bukkit names through.
   */
  lemma MatchesBukkitName(q: Potion, p: Potion)
    ensures Matches(q, BukkitName(p)) ==> BukkitName(q) == BukkitName(p)
  {
    LengthsDiffer(Name(q), BukkitName(p));
    if MinecraftField(q).Some? {
      LengthsDiffer(MinecraftField(q).value, BukkitName(p));
    }
    if q == SLOW && p == JUMP_BOOST {
      DifferAt(Name(q), BukkitName(p), 0);
    }
    if q == INSTANT_HEAL && p == REGEN {
      DifferAt(Name(q), BukkitName(p), 0);
    }
  }

  /** `getBukkitName` of anything that normalises to a Bukkit name gives that Bukkit name. */
  lemma BukkitOfBukkitName(name: string, p: Potion)
    requires Normalize(name) == BukkitName(p)
    ensures GetBukkitName(name) == BukkitName(p)
  {
    forall q {
      MatchesBukkitName(q, p);
    }
  }

  /** `getBukkitName` of a name that matches no constant gives the normalised name. */
  lemma BukkitOfUnknown(name: string)
    requires forall p :: !Matches(p, Normalize(name))
    ensures GetBukkitName(name) == Normalize(name)
  {
  }

  /** Anything equal to "Slowness" ignoring case, once normalised, is the Bukkit name SLOW. */
  lemma BukkitOfSlowness(name: string)
    requires EqualsIgnoreCase(Normalize(name), "Slowness")
    ensures GetBukkitName(name) == "SLOW"
  {
    assert Matches(SLOW, Normalize(name));
  }

  /** `getBukkitName("Slowness")` is "SLOW". */
  lemma SlownessIsSlow()
    ensures GetBukkitName("Slowness") == "SLOW"
  {
    NormalizeIgnoringCase("Slowness");
    BukkitOfSlowness("Slowness");
  }

  /** Every Bukkit name is in normal form. */
  lemma BukkitNameNormal(p: Potion)
    ensures Normal(BukkitName(p))
  {
  }

  /** `getBukkitName` undoes `getMinecraftName`. */
  lemma MinecraftNameRoundTrip(p: Potion)
    ensures GetBukkitName(GetMinecraftName(p)) == BukkitName(p)
  {
    if p == SLOW {
      SlownessIsSlow();
    } else {
      BukkitNameNormal(p);
      NormalizeNormal(BukkitName(p));
      BukkitOfBukkitName(BukkitName(p), p);
    }
  }

  /** Constants have distinct Bukkit names. */
  lemma BukkitNamesDistinct(q: Potion, p: Potion)
    ensures BukkitName(q) == BukkitName(p) ==> q == p
  {
    if (q == SLOW && p == JUMP_BOOST) || (q == JUMP_BOOST && p == SLOW) {
      assert BukkitName(q)[0] != BukkitName(p)[0];
    }
  }

  /** `getLocalizedName` of anything that normalises to a Bukkit name shows that potion's Minecraft name. */
  lemma LocalizedOfBukkit(name: string, p: Potion, capitalizeFully: string -> string)
    requires Normalize(name) == BukkitName(p)
    ensures GetLocalizedName(name, capitalizeFully) == capitalizeFully(MapChar(GetMinecraftName(p), '_', ' '))
  {
    var found := FindByBukkit(VALUES, Normalize(name));
    if found.Some? {
      BukkitNamesDistinct(found.value, p);
    } else {
      InValues(p);
    }
  }

  /** `getLocalizedName` of a name that is no Bukkit name keeps the input as given, not normalised. */
  lemma LocalizedOfUnknown(name: string, capitalizeFully: string -> string)
    requires forall p :: BukkitName(p) != Normalize(name)
    ensures GetLocalizedName(name, capitalizeFully) == capitalizeFully(MapChar(name, '_', ' '))
  {
  }
}
