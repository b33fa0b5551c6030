/**
 * Path resolution and mutation of NBT compounds.  A compound handle knows
 * only its name and its parent; to act on it, the handle's chain of names
 * is collected up to the root and then walked back down from the root tag
 * the whole chain shares.  The tags themselves are a tree of named
 * sub-compounds and values.
 */
module NbtReflectionUtil {
  import opened Wrappers

  /** A value stored under a key. */
  datatype Data = Text(s: string) | Number(n: int) | Bytes(bs: seq<int>)

  /** An NBT tag: a compound of named tags, or a value. */
  datatype Tag = Compound(entries: map<string, Tag>) | Value(data: Data)

  datatype Error =
    | NoSuchCompound(name: string) // `getSubNBTTagCompound` on a missing name
    | NotLinked                    // "wasn't able to be linked back to the root"

  /** What `getData` reads. */
  datatype Read = NullRoot | Found(tag: Tag) | Missing

  /** The element classes `getList` is asked for. */
  datatype ElementClass = StringClass | ListCompoundClass | IntegerClass | FloatClass | DoubleClass | LongClass | OtherClass

  /** The list wrappers `getList` builds. */
  datatype ListKind = StringList | CompoundList | IntegerList | FloatList | DoubleList | LongList

  /** `getSubNBTTagCompound`: the sub-compound under `name`; a missing name fails. */
  function Sub(t: Tag, name: string): (r: Result<Tag, Error>)
    ensures r.Ok? <==> t.Compound? && name in t.entries && t.entries[name].Compound?
    ensures r.Ok? ==> r.value == t.entries[name]
    ensures r.Err? ==> r == Err(NoSuchCompound(name))
  {
    if t.Compound? && name in t.entries && t.entries[name].Compound? then Ok(t.entries[name])
    else Err(NoSuchCompound(name))
  }

  /** The compound reached from `t` by following `path`, root first; the first missing name fails. */
  function Descend(t: Tag, path: seq<string>): (r: Result<Tag, Error>)
    ensures r.Ok? && t.Compound? ==> r.value.Compound?
    ensures path == [] ==> r == Ok(t)
  {
    if path == [] then Ok(t)
    else
      match Sub(t, path[0])
      case Err(e) => Err(e)
      case Ok(s) => Descend(s, path[1..])
  }

  /** `t` with the compound at `path` replaced by `sub`. */
  function SetAt(t: Tag, path: seq<string>, sub: Tag): (r: Tag)
    requires Descend(t, path).Ok?
    ensures path != [] ==> r.Compound? && r.entries.Keys == t.entries.Keys
  {
    if path == [] then sub
    else Compound(t.entries[path[0] := SetAt(t.entries[path[0]], path[1..], sub)])
  }

  /** The root tag an operation works on: the stored one, or a fresh empty compound for null. */
  function RootOf(stored: Option<map<string, Tag>>): Tag {
    Compound(if stored.Some? then stored.value else map[])
  }

  /**
   * The root after editing the compound at `path`: `key` set to `val`, or
   * removed for a null value; a null key edits nothing.
   */
  function Edit(stored: Option<map<string, Tag>>, path: seq<string>, key: Option<string>, val: Option<Tag>)
    : (r: Result<map<string, Tag>, Error>)
    ensures r.Ok? <==> Descend(RootOf(stored), path).Ok?
  {
    var root := RootOf(stored);
    match Descend(root, path)
    case Err(e) => Err(e)
    case Ok(working) =>
      var edited :=
        if key.None? then working.entries
        else if val.None? then working.entries - {key.value}
        else working.entries[key.value := val.value];
      var updated := SetAt(root, path, Compound(edited));
      Ok(updated.entries)
  }

  function Reverse(s: seq<string>): (r: seq<string>)
    ensures |r| == |s|
  {
    if s == [] then [] else Reverse(s[1..]) + [s[0]]
  }

  lemma {:induction false} ReverseAppend(s: seq<string>, x: string)
    ensures Reverse(s + [x]) == [x] + Reverse(s)
  {
    if s != [] {
      assert (s + [x])[1..] == s[1..] + [x];
      ReverseAppend(s[1..], x);
    } else {
      assert Reverse([x]) == Reverse([]) + [x];
    }
  }

  /** Where the shared root tag lives (`getCompound`/`setCompound` of the outermost handle). */
  class Store {
    var tag: Option<map<string, Tag>>

    constructor (tag: Option<map<string, Tag>>)
      ensures this.tag == tag
    {
      this.tag := tag;
    }
  }

  /** An `NBTCompound` handle: a name under a parent, down to the root handle. */
  class NbtCompound {
    const name: string
    const parent: NbtCompound?
    const store: Store
    ghost const depth: nat

    /** The parent chain is finite and shares one store. */
    ghost predicate Linked()
      decreases depth
    {
      parent != null ==> parent.depth < depth && parent.store == store && parent.Linked()
    }

    /** The root handle over a store. */
    constructor Root(store: Store, name: string)
      ensures Linked() && parent == null && this.store == store && this.name == name
    {
      this.name := name;
      parent := null;
      this.store := store;
      depth := 0;
    }

    /** `getOrCreateCompound(name)`'s handle under `parent`. */
    constructor Child(parent: NbtCompound, name: string)
      requires parent.Linked()
      ensures Linked() && this.parent == parent && store == parent.store && this.name == name
    {
      this.name := name;
      this.parent := parent;
      store := parent.store;
      depth := parent.depth + 1;
    }
  }

  /** The names from the root down to `c`. */
  function Path(c: NbtCompound): seq<string>
    requires c.Linked()
    decreases c.depth
  {
    if c.parent == null then [] else Path(c.parent) + [c.name]
  }

  /**
   * `getToCompound`: the names are collected walking up the parents, then
   * followed from `tag` starting with the one nearest the root.
   */
  method GetToCompound(tag: Tag, comp: NbtCompound) returns (r: Result<Tag, Error>)
    requires comp.Linked()
    ensures r == Descend(tag, Path(comp))
    ensures comp.parent == null ==> r == Ok(tag)
  {
    var structure: seq<string> := [];
    var c: NbtCompound := comp;
    while c.parent != null
      invariant c.Linked()
      invariant Path(comp) == Path(c) + Reverse(structure)
      decreases c.depth
    {
      ReverseAppend(structure, c.name);
      structure := structure + [c.name];
      c := c.parent;
    }
    assert Path(c) == [];
    assert Path(comp) == Reverse(structure);
    var t := tag;
    while |structure| > 0
      invariant Descend(tag, Path(comp)) == Descend(t, Reverse(structure))
    {
      var target := structure[|structure| - 1];
      assert structure == structure[..|structure| - 1] + [target];
      ReverseAppend(structure[..|structure| - 1], target);
      structure := structure[..|structure| - 1];
      assert ([target] + Reverse(structure))[1..] == Reverse(structure);
      var next := Sub(t, target);
      if next.Err? {
        return Err(next.error);
      }
      t := next.value;
    }
    return Ok(t);
  }

  /** `validateCompound`: a broken path fails instead of answering false, so it never answers false. */
  method ValidateCompound(comp: NbtCompound) returns (r: Result<bool, Error>)
    requires comp.Linked()
    ensures r != Ok(false)
    ensures r.Ok? <==> Descend(RootOf(comp.store.tag), Path(comp)).Ok?
    ensures r.Err? ==> r.error == Descend(RootOf(comp.store.tag), Path(comp)).error
  {
    var root := RootOf(comp.store.tag);
    var found := GetToCompound(root, comp);
    if found.Err? {
      return Err(found.error);
    }
    return Ok(true);
  }

  /**
   * The shared step of `set`, `setData`, `remove` and `addNBTTagCompound`:
   * validate, resolve the working compound, edit it and store the root back.
   */
  method EditCompound(comp: NbtCompound, key: Option<string>, val: Option<Tag>) returns (r: Result<(), Error>)
    requires comp.Linked()
    modifies comp.store
    ensures var e := Edit(old(comp.store.tag), Path(comp), key, val);
      && (r.Ok? <==> e.Ok?)
      && (r.Ok? ==> comp.store.tag == Some(e.value))
      && (r.Err? ==> r.error == e.error && comp.store.tag == old(comp.store.tag))
  {
    var root := RootOf(comp.store.tag);
    var valid := ValidateCompound(comp);
    if valid.Err? {
      return Err(valid.error);
    }
    var working := GetToCompound(root, comp);
    var entries := working.value.entries;
    if key.Some? {
      if val.None? {
        entries := entries - {key.value};
      } else {
        entries := entries[key.value := val.value];
      }
    }
    comp.store.tag := Some(SetAt(root, Path(comp), Compound(entries)).entries);
    return Ok(());
  }

  /** `remove`: deletes `key` in the resolved compound only; a null key removes nothing. */
  method Remove(comp: NbtCompound, key: Option<string>) returns (r: Result<(), Error>)
    requires comp.Linked()
    modifies comp.store
    ensures var e := Edit(old(comp.store.tag), Path(comp), key, None);
      && (r.Ok? <==> e.Ok?)
      && (r.Ok? ==> comp.store.tag == Some(e.value))
      && (r.Err? ==> comp.store.tag == old(comp.store.tag))
  {
    r := EditCompound(comp, key, None);
  }

  /** `set`: a null value removes the key, exactly as `remove`; otherwise the key is set in the resolved compound. */
  method Set(comp: NbtCompound, key: string, val: Option<Tag>) returns (r: Result<(), Error>)
    requires comp.Linked()
    modifies comp.store
    ensures var e := Edit(old(comp.store.tag), Path(comp), Some(key), val);
      && (r.Ok? <==> e.Ok?)
      && (r.Ok? ==> comp.store.tag == Some(e.value))
      && (r.Err? ==> comp.store.tag == old(comp.store.tag))
  {
    if val.None? {
      r := Remove(comp, Some(key));
      return;
    }
    r := EditCompound(comp, Some(key), val);
  }

  /** `setData`: a typed value; null removes the key, exactly as `remove`. */
  method SetData(comp: NbtCompound, key: string, data: Option<Data>) returns (r: Result<(), Error>)
    requires comp.Linked()
    modifies comp.store
    ensures var e := Edit(old(comp.store.tag), Path(comp), Some(key), if data.Some? then Some(Value(data.value)) else None);
      && (r.Ok? <==> e.Ok?)
      && (r.Ok? ==> comp.store.tag == Some(e.value))
      && (r.Err? ==> comp.store.tag == old(comp.store.tag))
  {
    if data.None? {
      r := Remove(comp, Some(key));
      return;
    }
    r := EditCompound(comp, Some(key), Some(Value(data.value)));
  }

  /** `addNBTTagCompound`: an empty compound under `name`; a null name goes to `remove`. */
  method AddNbtTagCompound(comp: NbtCompound, name: Option<string>) returns (r: Result<(), Error>)
    requires comp.Linked()
    modifies comp.store
    ensures var e := Edit(old(comp.store.tag), Path(comp), name, if name.Some? then Some(Compound(map[])) else None);
      && (r.Ok? <==> e.Ok?)
      && (r.Ok? ==> comp.store.tag == Some(e.value))
      && (r.Err? ==> comp.store.tag == old(comp.store.tag))
  {
    if name.None? {
      r := Remove(comp, name);
      return;
    }
    r := EditCompound(comp, name, Some(Compound(map[])));
  }

  /**
   * `mergeOtherNBTCompound`: both compounds must resolve from their roots;
   * the source's entries are merged into the target's by Minecraft's own
   * compound merge, given here as `merge`.
   */
  method MergeOtherNbtCompound(comp: NbtCompound, src: NbtCompound,
                               merge: (map<string, Tag>, map<string, Tag>) -> map<string, Tag>)
    returns (r: Result<(), Error>)
    requires comp.Linked() && src.Linked()
    modifies comp.store
    ensures Descend(RootOf(old(comp.store.tag)), Path(comp)).Err? ==> r.Err?
    ensures Descend(RootOf(old(src.store.tag)), Path(src)).Err? ==> r.Err?
    ensures r.Ok? <==> (Descend(RootOf(old(comp.store.tag)), Path(comp)).Ok?
                        && Descend(RootOf(old(src.store.tag)), Path(src)).Ok?)
    ensures r.Ok? ==>
      var root := RootOf(old(comp.store.tag));
      var working := Descend(root, Path(comp)).value;
      var source := Descend(RootOf(old(src.store.tag)), Path(src)).value;
      comp.store.tag == Some(SetAt(root, Path(comp), Compound(merge(working.entries, source.entries))).entries)
    ensures r.Err? ==> comp.store.tag == old(comp.store.tag)
  {
    var root := RootOf(comp.store.tag);
    var valid := ValidateCompound(comp);
    if valid.Err? {
      return Err(valid.error);
    }
    var working := GetToCompound(root, comp);
    var rootSrc := RootOf(src.store.tag);
    var validSrc := ValidateCompound(src);
    if validSrc.Err? {
      return Err(validSrc.error);
    }
    var workingSrc := GetToCompound(rootSrc, src);
    var merged := merge(working.value.entries, workingSrc.value.entries);
    comp.store.tag := Some(SetAt(root, Path(comp), Compound(merged)).entries);
    return Ok(());
  }

  /**
   * `getData`: a null root reads as null, where the other operations use a
   * fresh empty compound; otherwise the key is read in the resolved compound.
   */
  method GetData(comp: NbtCompound, key: string) returns (r: Result<Read, Error>)
    requires comp.Linked()
    ensures comp.store.tag.None? ==> r == Ok(NullRoot)
    ensures comp.store.tag.Some? ==>
      var d := Descend(RootOf(comp.store.tag), Path(comp));
      && (r.Ok? <==> d.Ok?)
      && (r.Ok? ==> r.value == if key in d.value.entries then Found(d.value.entries[key]) else Missing)
  {
    if comp.store.tag.None? {
      return Ok(NullRoot);
    }
    var root := Compound(comp.store.tag.value);
    var valid := ValidateCompound(comp);
    if valid.Err? {
      return Err(valid.error);
    }
    var working := GetToCompound(root, comp);
    var entries := working.value.entries;
    return Ok(if key in entries then Found(entries[key]) else Missing);
  }

  /** `getList`'s dispatch on the element class: null for any class it does not list. */
  function ListKindOf(clazz: ElementClass): (r: Option<ListKind>)
    ensures r.None? <==> clazz == OtherClass
  {
    match clazz
    case StringClass => Some(StringList)
    case ListCompoundClass => Some(CompoundList)
    case IntegerClass => Some(IntegerList)
    case FloatClass => Some(FloatList)
    case DoubleClass => Some(DoubleList)
    case LongClass => Some(LongList)
    case OtherClass => None
  }

  /** `getList`: the path must resolve; then the list wrapper for the class, or null. */
  method GetList(comp: NbtCompound, clazz: ElementClass) returns (r: Result<Option<ListKind>, Error>)
    requires comp.Linked()
    ensures r.Ok? <==> Descend(RootOf(comp.store.tag), Path(comp)).Ok?
    ensures r.Ok? ==> r.value == ListKindOf(clazz)
  {
    var valid := ValidateCompound(comp);
    if valid.Err? {
      return Err(valid.error);
    }
    return Ok(ListKindOf(clazz));
  }

  /** After an edit, the edited path resolves to the new compound. */
  lemma {:induction false} SetAtDescend(t: Tag, path: seq<string>, sub: Tag)
    requires Descend(t, path).Ok? && sub.Compound?
    ensures Descend(SetAt(t, path, sub), path) == Ok(sub)
  {
    if path != [] {
      SetAtDescend(t.entries[path[0]], path[1..], sub);
    }
  }

  predicate IsPrefix(p: seq<string>, q: seq<string>) {
    |p| <= |q| && q[..|p|] == p
  }

  lemma PrefixCons(x: string, p: seq<string>, q: seq<string>)
    ensures IsPrefix(p, q) ==> IsPrefix([x] + p, [x] + q)
  {
    if IsPrefix(p, q) {
      assert ([x] + q)[..|p| + 1] == [x] + q[..|p|];
    }
  }

  /**
   * An edit leaves every compound off the edited path as it was: a path
   * that is neither a prefix nor an extension of the edited one resolves
   * to the same compound before and after.
   */
  lemma {:induction false} SetAtElsewhere(t: Tag, path: seq<string>, sub: Tag, q: seq<string>)
    requires Descend(t, path).Ok? && Descend(t, q).Ok?
    requires !IsPrefix(path, q) && !IsPrefix(q, path)
    ensures Descend(SetAt(t, path, sub), q) == Descend(t, q)
  {
    assert IsPrefix([], q) && IsPrefix([], path);
    if path[0] == q[0] {
      assert path == [path[0]] + path[1..] && q == [q[0]] + q[1..];
      PrefixCons(path[0], path[1..], q[1..]);
      PrefixCons(path[0], q[1..], path[1..]);
      SetAtElsewhere(t.entries[path[0]], path[1..], sub, q[1..]);
    }
  }

  /** Every compound on the way to the edited one keeps its keys: only the working compound gains or loses one. */
  lemma {:induction false} SetAtAbove(t: Tag, path: seq<string>, sub: Tag, k: nat)
    requires Descend(t, path).Ok? && k < |path|
    ensures Descend(t, path[..k]).Ok?
    ensures Descend(SetAt(t, path, sub), path[..k]).Ok?
    ensures Descend(SetAt(t, path, sub), path[..k]).value.entries.Keys == Descend(t, path[..k]).value.entries.Keys
  {
    if k > 0 {
      assert path[..k][1..] == path[1..][..k - 1];
      SetAtAbove(t.entries[path[0]], path[1..], sub, k - 1);
    }
  }

  /**
   * `set`'s effect: the working compound of the path holds the new value
   * under `key` and no other key of it changes; a null value removes the
   * key instead.
   */
  lemma EditEffect(stored: Option<map<string, Tag>>, path: seq<string>, key: string, val: Option<Tag>)
    requires Edit(stored, path, Some(key), val).Ok?
    ensures var before := Descend(RootOf(stored), path).value;
      var after := Descend(Compound(Edit(stored, path, Some(key), val).value), path);
      && after.Ok?
      && (val.Some? ==> after.value.entries == before.entries[key := val.value])
      && (val.None? ==> after.value.entries == before.entries - {key})
  {
    var root := RootOf(stored);
    var before := Descend(root, path).value;
    var edited := if val.None? then before.entries - {key} else before.entries[key := val.value];
    SetAtDescend(root, path, Compound(edited));
    if path == [] {
      assert SetAt(root, path, Compound(edited)) == Compound(edited);
    }
  }
}
