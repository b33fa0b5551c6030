/**
 * The table between the enchantment names players know and the legacy
 * Bukkit constant names, with the lookups in both directions.  The
 * capitalising helpers `ItemUtil.bountifyCapitalized` and
 * `WordUtils.capitalizeFully` are parameters.
 */
module EnchantmentWrapper {
  import opened Wrappers
  import opened Strings

  datatype Enchantment =
    | PROTECTION | FIRE_PROTECTION | FEATHER_FALLING | BLAST_PROTECTION | PROJECTILE_PROTECTION
    | RESPIRATION | AQUA_AFFINITY | THORN | CURSE_OF_VANISHING | CURSE_OF_BINDING
    | SHARPNESS | SMITE | BANE_OF_ARTHROPODS | LOOTING | SWEEPING_EDGE
    | EFFICIENCY | UNBREAKING | FORTUNE | POWER | PUNCH | FLAME | INFINITY | LUCK_OF_THE_SEA

  /** `values()`: the constants in declaration order. */
  const VALUES: seq<Enchantment> := [
    PROTECTION, FIRE_PROTECTION, FEATHER_FALLING, BLAST_PROTECTION, PROJECTILE_PROTECTION,
    RESPIRATION, AQUA_AFFINITY, THORN, CURSE_OF_VANISHING, CURSE_OF_BINDING,
    SHARPNESS, SMITE, BANE_OF_ARTHROPODS, LOOTING, SWEEPING_EDGE,
    EFFICIENCY, UNBREAKING, FORTUNE, POWER, PUNCH, FLAME, INFINITY, LUCK_OF_THE_SEA]

  /** `name()` and `toString()`: the constant's own name. */
  function Name(e: Enchantment): string {
    match e
    case PROTECTION => "PROTECTION"
    case FIRE_PROTECTION => "FIRE_PROTECTION"
    case FEATHER_FALLING => "FEATHER_FALLING"
    case BLAST_PROTECTION => "BLAST_PROTECTION"
    case PROJECTILE_PROTECTION => "PROJECTILE_PROTECTION"
    case RESPIRATION => "RESPIRATION"
    case AQUA_AFFINITY => "AQUA_AFFINITY"
    case THORN => "THORN"
    case CURSE_OF_VANISHING => "CURSE_OF_VANISHING"
    case CURSE_OF_BINDING => "CURSE_OF_BINDING"
    case SHARPNESS => "SHARPNESS"
    case SMITE => "SMITE"
    case BANE_OF_ARTHROPODS => "BANE_OF_ARTHROPODS"
    case LOOTING => "LOOTING"
    case SWEEPING_EDGE => "SWEEPING_EDGE"
    case EFFICIENCY => "EFFICIENCY"
    case UNBREAKING => "UNBREAKING"
    case FORTUNE => "FORTUNE"
    case POWER => "POWER"
    case PUNCH => "PUNCH"
    case FLAME => "FLAME"
    case INFINITY => "INFINITY"
    case LUCK_OF_THE_SEA => "LUCK_OF_THE_SEA"
  }

  /** The `bukkitName` field each constant is declared with. */
  function BukkitField(e: Enchantment): (r: Option<string>)
    ensures r.Some?  // every constant is declared with one
  {
    match e
    case PROTECTION => Some("PROTECTION_ENVIRONMENTAL")
    case FIRE_PROTECTION => Some("PROTECTION_FIRE")
    case FEATHER_FALLING => Some("PROTECTION_FALL")
    case BLAST_PROTECTION => Some("PROTECTION_EXPLOSIONS")
    case PROJECTILE_PROTECTION => Some("PROTECTION_PROJECTILE")
    case RESPIRATION => Some("OXYGEN")
    case AQUA_AFFINITY => Some("WATER_WORKER")
    case THORN => Some("THORNS")
    case CURSE_OF_VANISHING => Some("VANISHING_CURSE")
    case CURSE_OF_BINDING => Some("BINDING_CURSE")
    case SHARPNESS => Some("DAMAGE_ALL")
    case SMITE => Some("DAMAGE_UNDEAD")
    case BANE_OF_ARTHROPODS => Some("DAMAGE_ARTHROPODS")
    case LOOTING => Some("LOOT_BONUS_MOBS")
    case SWEEPING_EDGE => Some("SWEEPING")
    case EFFICIENCY => Some("DIG_SPEED")
    case UNBREAKING => Some("DURABILITY")
    case FORTUNE => Some("LOOT_BONUS_BLOCKS")
    case POWER => Some("ARROW_DAMAGE")
    case PUNCH => Some("ARROW_KNOCKBACK")
    case FLAME => Some("ARROW_FIRE")
    case INFINITY => Some("ARROW_INFINITE")
    case LUCK_OF_THE_SEA => Some("LUCK")
  }

  /** The first constant in `es` whose name is `name`. */
  function FindByName(es: seq<Enchantment>, name: string): Option<Enchantment> {
    if es == [] then None
    else if Name(es[0]) == name then Some(es[0])
    else FindByName(es[1..], name)
  }

  /** The first constant in `es` whose `bukkitName` is `name`. */
  function FindByBukkit(es: seq<Enchantment>, name: string): Option<Enchantment> {
    if es == [] then None
    else if BukkitField(es[0]) == Some(name) then Some(es[0])
    else FindByBukkit(es[1..], name)
  }

  /**
   * `toBukkit`: the Bukkit name of the constant named like the normalised
   * input, or the normalised input itself.
   */
  function ToBukkit(name: string): (r: string)
  {
    var n := Normalize(name);
    var found := FindByName(VALUES, n);
    if found.Some? then BukkitField(found.value).value else n
  }

  /**
   * `toMinecraft`: the display name of the constant whose Bukkit name is the
   * normalised input, or the normalised input capitalised.
   */
  function ToMinecraft(name: string, bountify: Enchantment -> string, capitalizeFully: string -> string): (r: string)
  {
    var n := Normalize(name);
    var found := FindByBukkit(VALUES, n);
    if found.Some? then bountify(found.value) else capitalizeFully(n)
  }

  /** `getBukkitName`: the declared Bukkit name, or the constant's name when there is none. */
  function GetBukkitName(e: Enchantment): (r: string)
    ensures BukkitField(e) == Some(r)
  {
    if BukkitField(e).Some? then BukkitField(e).value else Name(e)
  }

  /** Length and last two characters: enough to tell every name in the table apart. */
  function Key(s: string): (int, char, char) {
    if |s| < 2 then (|s|, ' ', ' ') else (|s|, s[|s| - 2], s[|s| - 1])
  }

  /** The constant whose name has key `k`, if any. */
  function ConstantOfKey(k: (int, char, char)): Option<Enchantment> {
    if k == (10, 'O', 'N') then Some(PROTECTION) else
    if k == (15, 'O', 'N') then Some(FIRE_PROTECTION) else
    if k == (15, 'N', 'G') then Some(FEATHER_FALLING) else
    if k == (16, 'O', 'N') then Some(BLAST_PROTECTION) else
    if k == (21, 'O', 'N') then Some(PROJECTILE_PROTECTION) else
    if k == (11, 'O', 'N') then Some(RESPIRATION) else
    if k == (13, 'T', 'Y') then Some(AQUA_AFFINITY) else
    if k == (5, 'R', 'N') then Some(THORN) else
    if k == (18, 'N', 'G') then Some(CURSE_OF_VANISHING) else
    if k == (16, 'N', 'G') then Some(CURSE_OF_BINDING) else
    if k == (9, 'S', 'S') then Some(SHARPNESS) else
    if k == (5, 'T', 'E') then Some(SMITE) else
    if k == (18, 'D', 'S') then Some(BANE_OF_ARTHROPODS) else
    if k == (7, 'N', 'G') then Some(LOOTING) else
    if k == (13, 'G', 'E') then Some(SWEEPING_EDGE) else
    if k == (10, 'C', 'Y') then Some(EFFICIENCY) else
    if k == (10, 'N', 'G') then Some(UNBREAKING) else
    if k == (7, 'N', 'E') then Some(FORTUNE) else
    if k == (5, 'E', 'R') then Some(POWER) else
    if k == (5, 'C', 'H') then Some(PUNCH) else
    if k == (5, 'M', 'E') then Some(FLAME) else
    if k == (8, 'T', 'Y') then Some(INFINITY) else
    if k == (15, 'E', 'A') then Some(LUCK_OF_THE_SEA) else
    None
  }

  /** The constant whose Bukkit name has key `k`, if any. */
  function BukkitOfKey(k: (int, char, char)): Option<Enchantment> {
    if k == (24, 'A', 'L') then Some(PROTECTION) else
    if k == (15, 'R', 'E') then Some(FIRE_PROTECTION) else
    if k == (15, 'L', 'L') then Some(FEATHER_FALLING) else
    if k == (21, 'N', 'S') then Some(BLAST_PROTECTION) else
    if k == (21, 'L', 'E') then Some(PROJECTILE_PROTECTION) else
    if k == (6, 'E', 'N') then Some(RESPIRATION) else
    if k == (12, 'E', 'R') then Some(AQUA_AFFINITY) else
    if k == (6, 'N', 'S') then Some(THORN) else
    if k == (15, 'S', 'E') then Some(CURSE_OF_VANISHING) else
    if k == (13, 'S', 'E') then Some(CURSE_OF_BINDING) else
    if k == (10, 'L', 'L') then Some(SHARPNESS) else
    if k == (13, 'A', 'D') then Some(SMITE) else
    if k == (17, 'D', 'S') then Some(BANE_OF_ARTHROPODS) else
    if k == (15, 'B', 'S') then Some(LOOTING) else
    if k == (8, 'N', 'G') then Some(SWEEPING_EDGE) else
    if k == (9, 'E', 'D') then Some(EFFICIENCY) else
    if k == (10, 'T', 'Y') then Some(UNBREAKING) else
    if k == (17, 'K', 'S') then Some(FORTUNE) else
    if k == (12, 'G', 'E') then Some(POWER) else
    if k == (15, 'C', 'K') then Some(PUNCH) else
    if k == (10, 'R', 'E') then Some(FLAME) else
    if k == (14, 'T', 'E') then Some(INFINITY) else
    if k == (4, 'C', 'K') then Some(LUCK_OF_THE_SEA) else
    None
  }

  /** The key of each constant's name, written out. */
  function NameKey(e: Enchantment): (int, char, char) {
    match e
    case PROTECTION => (10, 'O', 'N')
    case FIRE_PROTECTION => (15, 'O', 'N')
    case FEATHER_FALLING => (15, 'N', 'G')
    case BLAST_PROTECTION => (16, 'O', 'N')
    case PROJECTILE_PROTECTION => (21, 'O', 'N')
    case RESPIRATION => (11, 'O', 'N')
    case AQUA_AFFINITY => (13, 'T', 'Y')
    case THORN => (5, 'R', 'N')
    case CURSE_OF_VANISHING => (18, 'N', 'G')
    case CURSE_OF_BINDING => (16, 'N', 'G')
    case SHARPNESS => (9, 'S', 'S')
    case SMITE => (5, 'T', 'E')
    case BANE_OF_ARTHROPODS => (18, 'D', 'S')
    case LOOTING => (7, 'N', 'G')
    case SWEEPING_EDGE => (13, 'G', 'E')
    case EFFICIENCY => (10, 'C', 'Y')
    case UNBREAKING => (10, 'N', 'G')
    case FORTUNE => (7, 'N', 'E')
    case POWER => (5, 'E', 'R')
    case PUNCH => (5, 'C', 'H')
    case FLAME => (5, 'M', 'E')
    case INFINITY => (8, 'T', 'Y')
    case LUCK_OF_THE_SEA => (15, 'E', 'A')
  }

  /** The key of each constant's Bukkit name, written out. */
  function BukkitKey(e: Enchantment): (int, char, char) {
    match e
    case PROTECTION => (24, 'A', 'L')
    case FIRE_PROTECTION => (15, 'R', 'E')
    case FEATHER_FALLING => (15, 'L', 'L')
    case BLAST_PROTECTION => (21, 'N', 'S')
    case PROJECTILE_PROTECTION => (21, 'L', 'E')
    case RESPIRATION => (6, 'E', 'N')
    case AQUA_AFFINITY => (12, 'E', 'R')
    case THORN => (6, 'N', 'S')
    case CURSE_OF_VANISHING => (15, 'S', 'E')
    case CURSE_OF_BINDING => (13, 'S', 'E')
    case SHARPNESS => (10, 'L', 'L')
    case SMITE => (13, 'A', 'D')
    case BANE_OF_ARTHROPODS => (17, 'D', 'S')
    case LOOTING => (15, 'B', 'S')
    case SWEEPING_EDGE => (8, 'N', 'G')
    case EFFICIENCY => (9, 'E', 'D')
    case UNBREAKING => (10, 'T', 'Y')
    case FORTUNE => (17, 'K', 'S')
    case POWER => (12, 'G', 'E')
    case PUNCH => (15, 'C', 'K')
    case FLAME => (10, 'R', 'E')
    case INFINITY => (14, 'T', 'E')
    case LUCK_OF_THE_SEA => (4, 'C', 'K')
  }

  lemma NameKeyIsKey(e: Enchantment)
    ensures Key(Name(e)) == NameKey(e)
  {
  }

  lemma BukkitKeyIsKey(e: Enchantment)
    ensures Key(GetBukkitName(e)) == BukkitKey(e)
  {
  }

  /** Each name key belongs to one constant. */
  lemma NameKeyDecodes(e: Enchantment)
    ensures ConstantOfKey(NameKey(e)) == Some(e)
  {
  }

  /** Each Bukkit key belongs to one constant. */
  lemma BukkitKeyDecodes(e: Enchantment)
    ensures BukkitOfKey(BukkitKey(e)) == Some(e)
  {
  }

  /** No constant's name has the key of a Bukkit name. */
  lemma BukkitKeyIsNoName(e: Enchantment)
    ensures ConstantOfKey(BukkitKey(e)) == None
  {
  }

  /** Constants have distinct names. */
  lemma NamesInjective(a: Enchantment, b: Enchantment)
    ensures Name(a) == Name(b) ==> a == b
  {
    NameKeyIsKey(a);
    NameKeyIsKey(b);
    NameKeyDecodes(a);
    NameKeyDecodes(b);
  }

  /** Constants have distinct Bukkit names, so the reverse lookup finds at most one. */
  lemma BukkitNamesInjective(a: Enchantment, b: Enchantment)
    ensures GetBukkitName(a) == GetBukkitName(b) ==> a == b
  {
    BukkitKeyIsKey(a);
    BukkitKeyIsKey(b);
    BukkitKeyDecodes(a);
    BukkitKeyDecodes(b);
  }

  /** No Bukkit name is also the name of a constant. */
  lemma BukkitNameIsNoName(c: Enchantment, e: Enchantment)
    ensures Name(c) != GetBukkitName(e)
  {
    NameKeyIsKey(c);
    BukkitKeyIsKey(e);
    NameKeyDecodes(c);
    BukkitKeyIsNoName(e);
  }

  /** Every constant is in `values()`. */
  lemma InValues(e: Enchantment)
    ensures e in VALUES
  {
  }

  /** A constant is found by its name in any list that holds it. */
  lemma {:induction false} FindByNameOf(es: seq<Enchantment>, e: Enchantment)
    requires e in es
    ensures FindByName(es, Name(e)) == Some(e)
  {
    NamesInjective(es[0], e);
    if Name(es[0]) != Name(e) {
      FindByNameOf(es[1..], e);
    }
  }

  /** A name that belongs to no constant is not found. */
  lemma {:induction false} FindByNameNone(es: seq<Enchantment>, name: string)
    requires forall c :: Name(c) != name
    ensures FindByName(es, name) == None
  {
    if es != [] {
      FindByNameNone(es[1..], name);
    }
  }

  /** A constant is found by its Bukkit name in any list that holds it. */
  lemma {:induction false} FindByBukkitOf(es: seq<Enchantment>, e: Enchantment)
    requires e in es
    ensures FindByBukkit(es, GetBukkitName(e)) == Some(e)
  {
    BukkitNamesInjective(es[0], e);
    if BukkitField(es[0]) != Some(GetBukkitName(e)) {
      FindByBukkitOf(es[1..], e);
    }
  }

  /** A name that is no constant's Bukkit name is not found by the reverse lookup. */
  lemma {:induction false} FindByBukkitNone(es: seq<Enchantment>, name: string)
    requires forall c :: GetBukkitName(c) != name
    ensures FindByBukkit(es, name) == None
  {
    if es != [] {
      assert GetBukkitName(es[0]) != name;
      FindByBukkitNone(es[1..], name);
    }
  }

  /** `toBukkit` of anything that normalises to a constant's name gives that constant's Bukkit name. */
  lemma ToBukkitOfName(name: string, e: Enchantment)
    requires Normalize(name) == Name(e)
    ensures ToBukkit(name) == GetBukkitName(e)
  {
    InValues(e);
    FindByNameOf(VALUES, e);
  }

  /**
   * `toBukkit` passes a Bukkit name through: anything that normalises to
   * one gives that Bukkit name, so `toBukkit` of its own result changes
   * nothing more.
   */
  lemma ToBukkitOfBukkitName(name: string, e: Enchantment)
    requires Normalize(name) == GetBukkitName(e)
    ensures ToBukkit(name) == GetBukkitName(e)
  {
    forall c {
      BukkitNameIsNoName(c, e);
    }
    FindByNameNone(VALUES, Normalize(name));
  }

  /** `toBukkit` of a name that is no constant's gives the normalised name. */
  lemma ToBukkitUnknown(name: string)
    requires forall c :: Name(c) != Normalize(name)
    ensures ToBukkit(name) == Normalize(name)
  {
    FindByNameNone(VALUES, Normalize(name));
  }

  /** `toBukkit` leaves its result alone on a name that is no constant's. */
  lemma ToBukkitUnknownStable(name: string)
    requires forall c :: Name(c) != Normalize(name)
    ensures ToBukkit(ToBukkit(name)) == ToBukkit(name)
  {
    ToBukkitUnknown(name);
    NormalizeIdempotent(name);
    ToBukkitUnknown(Normalize(name));
  }

  /** Every Bukkit name is in normal form (checked a few constants at a time). */
  lemma BukkitNameNormal(e: Enchantment)
    ensures Normal(GetBukkitName(e))
  {
    match e
    case PROTECTION | FIRE_PROTECTION | FEATHER_FALLING | BLAST_PROTECTION | PROJECTILE_PROTECTION => BukkitNamesNormal1(e);
    case RESPIRATION | AQUA_AFFINITY | THORN | CURSE_OF_VANISHING | CURSE_OF_BINDING => BukkitNamesNormal2(e);
    case SHARPNESS | SMITE | BANE_OF_ARTHROPODS | LOOTING | SWEEPING_EDGE => BukkitNamesNormal3(e);
    case EFFICIENCY | UNBREAKING | FORTUNE | POWER => BukkitNamesNormal4(e);
    case PUNCH | FLAME | INFINITY | LUCK_OF_THE_SEA => BukkitNamesNormal5(e);
  }

  lemma BukkitNamesNormal1(e: Enchantment)
    requires e == PROTECTION || e == FIRE_PROTECTION || e == FEATHER_FALLING || e == BLAST_PROTECTION || e == PROJECTILE_PROTECTION
    ensures Normal(GetBukkitName(e))
  {
  }

  lemma BukkitNamesNormal2(e: Enchantment)
    requires e == RESPIRATION || e == AQUA_AFFINITY || e == THORN || e == CURSE_OF_VANISHING || e == CURSE_OF_BINDING
    ensures Normal(GetBukkitName(e))
  {
  }

  lemma BukkitNamesNormal3(e: Enchantment)
    requires e == SHARPNESS || e == SMITE || e == BANE_OF_ARTHROPODS || e == LOOTING || e == SWEEPING_EDGE
    ensures Normal(GetBukkitName(e))
  {
  }

  lemma BukkitNamesNormal4(e: Enchantment)
    requires e == EFFICIENCY || e == UNBREAKING || e == FORTUNE || e == POWER
    ensures Normal(GetBukkitName(e))
  {
  }

  lemma BukkitNamesNormal5(e: Enchantment)
    requires e == PUNCH || e == FLAME || e == INFINITY || e == LUCK_OF_THE_SEA
    ensures Normal(GetBukkitName(e))
  {
  }

  /** `toBukkit` is idempotent. */
  lemma ToBukkitIdempotent(name: string)
    ensures ToBukkit(ToBukkit(name)) == ToBukkit(name)
  {
    var found := FindByName(VALUES, Normalize(name));
    if found.Some? {
      var e := found.value;
      FindByNameFound(VALUES, Normalize(name));
      ToBukkitOfName(name, e);
      BukkitNameNormal(e);
      NormalizeNormal(GetBukkitName(e));
      ToBukkitOfBukkitName(GetBukkitName(e), e);
    } else {
      FindByNameMissing(VALUES, Normalize(name));
      ToBukkitUnknownStable(name);
    }
  }

  /** What `FindByName` finds has the name looked for. */
  lemma {:induction false} FindByNameFound(es: seq<Enchantment>, name: string)
    ensures FindByName(es, name).Some? ==> Name(FindByName(es, name).value) == name
  {
    if es != [] && Name(es[0]) != name {
      FindByNameFound(es[1..], name);
    }
  }

  /** When `FindByName` over all constants finds nothing, no constant has that name. */
  lemma FindByNameMissing(es: seq<Enchantment>, name: string)
    requires es == VALUES
    ensures FindByName(es, name).None? ==> forall c :: Name(c) != name
  {
    forall c | Name(c) == name
      ensures FindByName(es, name).Some?
    {
      InValues(c);
      FindByNameOf(es, c);
    }
  }

  /** The reverse lookup of anything that normalises to a Bukkit name finds that constant. */
  lemma ToMinecraftOfBukkit(name: string, e: Enchantment, bountify: Enchantment -> string, capitalizeFully: string -> string)
    requires Normalize(name) == GetBukkitName(e)
    ensures ToMinecraft(name, bountify, capitalizeFully) == bountify(e)
  {
    InValues(e);
    FindByBukkitOf(VALUES, e);
  }

  /** A name that is no Bukkit name is capitalised instead. */
  lemma ToMinecraftUnknown(name: string, bountify: Enchantment -> string, capitalizeFully: string -> string)
    requires forall c :: GetBukkitName(c) != Normalize(name)
    ensures ToMinecraft(name, bountify, capitalizeFully) == capitalizeFully(Normalize(name))
  {
    FindByBukkitNone(VALUES, Normalize(name));
  }
}
