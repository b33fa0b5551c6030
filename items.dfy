/**
 * Item stacks and inventory slot rows, shared by the inventory code.
 * A slot is `None` when it is empty (Bukkit reports such a slot as null).
 */
module Items {
  import opened Wrappers

  /** The material name of the empty item. */
  const AIR: string := "AIR"

  /** What makes two stacks similar: material and an opaque durability/meta key. */
  datatype Key = Key(kind: string, meta: int)

  /** An item stack: its material, its meta key and its amount. */
  datatype Stack = Stack(kind: string, meta: int, amount: int) {
    function KeyOf(): Key { Key(kind, meta) }
  }

  /** `ItemStack.isSimilar`: same material and meta, whatever the amounts. */
  predicate Similar(a: Stack, b: Stack) {
    a.KeyOf() == b.KeyOf()
  }

  type Slots = seq<Option<Stack>>

  /** Which stacks a sum counts: all of one material, or all similar to one key. */
  datatype Sel = ByKind(kind: string) | ByKey(key: Key)

  predicate Selects(sel: Sel, s: Stack) {
    match sel
    case ByKind(kind) => s.kind == kind
    case ByKey(key) => s.KeyOf() == key
  }

  /** The amount a slot contributes to a sum. */
  function SlotAmount(o: Option<Stack>, sel: Sel): int {
    if o.Some? && Selects(sel, o.value) then o.value.amount else 0
  }

  /** The summed amounts of the selected stacks in a row of slots. */
  function Sum(s: Slots, sel: Sel): int {
    if s == [] then 0 else Sum(s[..|s| - 1], sel) + SlotAmount(s[|s| - 1], sel)
  }

  lemma SumAppend(s: Slots, x: Option<Stack>, sel: Sel)
    ensures Sum(s + [x], sel) == Sum(s, sel) + SlotAmount(x, sel)
  {
    assert (s + [x])[..|s|] == s;
  }

  lemma {:induction false} SumConcat(s: Slots, t: Slots, sel: Sel)
    ensures Sum(s + t, sel) == Sum(s, sel) + Sum(t, sel)
    decreases |t|
  {
    if t != [] {
      var t' := t[..|t| - 1];
      assert s + t == (s + t') + [t[|t| - 1]];
      SumAppend(s + t', t[|t| - 1], sel);
      SumConcat(s, t', sel);
    } else {
      assert s + t == s;
    }
  }

  /** Overwriting one slot changes a sum by the difference of the two slots. */
  lemma {:induction false} SumUpdate(s: Slots, i: nat, x: Option<Stack>, sel: Sel)
    requires i < |s|
    ensures Sum(s[i := x], sel) == Sum(s, sel) - SlotAmount(s[i], sel) + SlotAmount(x, sel)
    decreases |s|
  {
    var t := s[..|s| - 1];
    if i == |s| - 1 {
      assert s[i := x][..|s| - 1] == t;
    } else {
      SumUpdate(t, i, x, sel);
      assert s[i := x][..|s| - 1] == t[i := x];
    }
  }

  /** A row in which every slot holds `None`. */
  function Nones(n: nat): (r: Slots)
    ensures |r| == n && forall i :: 0 <= i < n ==> r[i].None?
  {
    if n == 0 then [] else Nones(n - 1) + [None]
  }

  lemma {:induction false} SumNones(n: nat, sel: Sel)
    ensures Sum(Nones(n), sel) == 0
  {
    if n > 0 {
      assert Nones(n)[..n - 1] == Nones(n - 1);
      SumNones(n - 1, sel);
    }
  }
}
