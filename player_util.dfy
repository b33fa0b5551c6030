/**
 * The inventory routines of PlayerUtil: counting and taking a material,
 * replacing the first similar stack, the nickname lookup, and the stacking
 * algorithm behind `addItems`.
 *
 * An inventory is an `array<Option<Stack>>` updated in place.  The maximum
 * stack size of a material is a parameter (`maxStack`).
 */
module PlayerUtil {
  import opened Wrappers
  import opened Strings
  import opened Items

  /** Slots of a player inventory that hold ordinary items. */
  const USABLE_PLAYER_INV_SIZE: nat := 36

  // ---------------------------------------------------------------------------
  // Finding a slot
  // ---------------------------------------------------------------------------

  /** What a slot scan looks for. */
  datatype Want =
    | OfKind(kind: string)              // a stack of the material
    | SimilarTo(item: Stack)            // a stack similar to the item
    | PartialOf(item: Stack, max: int)  // a similar stack below `max`
    | Empty                             // an empty slot

  predicate Wants(w: Want, o: Option<Stack>) {
    match w
    case OfKind(kind) => o.Some? && o.value.kind == kind
    case SimilarTo(item) => o.Some? && Similar(o.value, item)
    case PartialOf(item, max) => o.Some? && o.value.amount < max && Similar(o.value, item)
    case Empty => o.None?
  }

  /** The lowest index at or after `from` whose slot is wanted, or -1. */
  function FirstFrom(s: Slots, w: Want, from: nat): (r: int)
    ensures r == -1 || (from <= r < |s| && Wants(w, s[r]))
    ensures forall j :: from <= j < |s| && (r == -1 || j < r) ==> !Wants(w, s[j])
    decreases |s| - from
  {
    if from >= |s| then -1
    else if Wants(w, s[from]) then from
    else FirstFrom(s, w, from + 1)
  }

  function FirstWhere(s: Slots, w: Want): int {
    FirstFrom(s, w, 0)
  }

  /** The scan loop shared by `firstPartial`, `firstEmpty`, `updateInvSlot` and `takeFirstOnePiece`. */
  method Find(inv: array<Option<Stack>>, w: Want) returns (r: int)
    ensures r == FirstWhere(inv[..], w)
  {
    var i := 0;
    while i < inv.Length
      invariant 0 <= i <= inv.Length
      invariant FirstFrom(inv[..], w, i) == FirstWhere(inv[..], w)
    {
      if Wants(w, inv[i]) {
        return i;
      }
      i := i + 1;
    }
    return -1;
  }

  /** `firstPartial`: -1 for a null item, else the first similar stack below `maxAmount`. */
  method FirstPartial(inv: array<Option<Stack>>, item: Option<Stack>, maxAmount: int) returns (r: int)
    ensures item.None? ==> r == -1
    ensures item.Some? ==> r == FirstWhere(inv[..], PartialOf(item.value, maxAmount))
  {
    if item.None? {
      return -1;
    }
    r := Find(inv, PartialOf(item.value, maxAmount));
  }

  /** `Inventory.firstEmpty`: the first empty slot, or -1. */
  method FirstEmpty(inv: array<Option<Stack>>) returns (r: int)
    ensures r == -1 <==> forall i :: 0 <= i < inv.Length ==> inv[i].Some?
    ensures r != -1 ==> 0 <= r < inv.Length && inv[r].None? && forall i :: 0 <= i < r ==> inv[i].Some?
  {
    r := Find(inv, Empty);
  }

  // ---------------------------------------------------------------------------
  // containsAtLeast, take, updateInvSlot
  // ---------------------------------------------------------------------------

  /** `containsAtLeast`: the amounts of the material's stacks sum to at least `atLeastSize`. */
  method ContainsAtLeast(inv: array<Option<Stack>>, atLeastSize: int, kind: string) returns (r: bool)
    ensures r <==> Sum(inv[..], ByKind(kind)) >= atLeastSize
  {
    var foundSize := 0;
    var i := 0;
    while i < inv.Length
      invariant 0 <= i <= inv.Length
      invariant foundSize == Sum(inv[..i], ByKind(kind))
    {
      if inv[i].Some? && inv[i].value.kind == kind {
        foundSize := foundSize + inv[i].value.amount;
      }
      assert inv[..i + 1] == inv[..i] + [inv[i]];
      SumAppend(inv[..i], inv[i], ByKind(kind));
      i := i + 1;
    }
    assert inv[..] == inv[..inv.Length];
    r := foundSize >= atLeastSize;
  }

  /** Removing one piece from a stack: one fewer, or the slot emptied when one is left. */
  function TakeOne(s: Stack): Option<Stack> {
    if s.amount > 1 then Some(s.(amount := s.amount - 1)) else None
  }

  /** The row after one piece of the material's first stack is taken. */
  function TakeFirst(s: Slots, kind: string): (r: Slots)
    ensures |r| == |s|
  {
    var i := FirstWhere(s, OfKind(kind));
    if i == -1 then s else s[i := TakeOne(s[i].value)]
  }

  /** The row after `n` pieces of the material are taken one at a time. */
  function TakeN(s: Slots, kind: string, n: int): (r: Slots)
    ensures |r| == |s|
    decreases n
  {
    if n <= 0 then s else TakeFirst(TakeN(s, kind, n - 1), kind)
  }

  /** `takeFirstOnePiece`: takes one piece of the first stack of the material, if any. */
  method TakeFirstOnePiece(inv: array<Option<Stack>>, kind: string) returns (taken: bool)
    modifies inv
    ensures taken <==> exists i :: 0 <= i < inv.Length && Wants(OfKind(kind), old(inv[i]))
    ensures inv[..] == TakeFirst(old(inv[..]), kind)
  {
    var i := Find(inv, OfKind(kind));
    if i == -1 {
      return false;
    }
    inv[i] := TakeOne(inv[i].value);
    return true;
  }

  /** `take`: all or nothing; `amount` single pieces are taken when there are enough. */
  method Take(inv: array<Option<Stack>>, kind: string, amount: int) returns (ok: bool)
    modifies inv
    ensures ok <==> Sum(old(inv[..]), ByKind(kind)) >= amount
    ensures !ok ==> inv[..] == old(inv[..])
    ensures ok ==> inv[..] == TakeN(old(inv[..]), kind, amount)
  {
    var enough := ContainsAtLeast(inv, amount, kind);
    if !enough {
      return false;
    }
    var i := 0;
    while i < amount
      invariant i <= amount || i == 0
      invariant inv[..] == TakeN(old(inv[..]), kind, i)
    {
      var _ := TakeFirstOnePiece(inv, kind);
      i := i + 1;
    }
    return true;
  }

  /** Every stored stack holds at least one piece. */
  predicate WellFormed(s: Slots) {
    forall i :: 0 <= i < |s| && s[i].Some? ==> s[i].value.amount >= 1
  }

  /** A positive total of a material means some slot holds it. */
  lemma {:induction false} PositiveSumHasStack(s: Slots, kind: string)
    requires Sum(s, ByKind(kind)) > 0
    ensures FirstWhere(s, OfKind(kind)) != -1
    decreases |s|
  {
    var t := s[..|s| - 1];
    if SlotAmount(s[|s| - 1], ByKind(kind)) <= 0 {
      PositiveSumHasStack(t, kind);
      var j := FirstWhere(t, OfKind(kind));
      assert s[j] == t[j];
    }
  }

  /**
   * Taking one piece from a well-formed row that holds the material lowers
   * the material's total by exactly one and leaves other materials alone.
   */
  lemma TakeFirstEffect(s: Slots, kind: string)
    requires WellFormed(s) && Sum(s, ByKind(kind)) > 0
    ensures WellFormed(TakeFirst(s, kind))
    ensures Sum(TakeFirst(s, kind), ByKind(kind)) == Sum(s, ByKind(kind)) - 1
    ensures forall i :: 0 <= i < |s| && !Wants(OfKind(kind), s[i]) ==> TakeFirst(s, kind)[i] == s[i]
  {
    PositiveSumHasStack(s, kind);
    var i := FirstWhere(s, OfKind(kind));
    SumUpdate(s, i, TakeOne(s[i].value), ByKind(kind));
  }

  /**
   * `take` on a well-formed inventory with enough of the material removes
   * exactly `amount` pieces of it and touches no slot of another material.
   */
  lemma {:induction false} TakeNEffect(s: Slots, kind: string, n: int)
    requires WellFormed(s) && 0 <= n <= Sum(s, ByKind(kind))
    ensures WellFormed(TakeN(s, kind, n))
    ensures Sum(TakeN(s, kind, n), ByKind(kind)) == Sum(s, ByKind(kind)) - n
    ensures forall i :: 0 <= i < |s| && !Wants(OfKind(kind), s[i]) ==> TakeN(s, kind, n)[i] == s[i]
    decreases n
  {
    if n > 0 {
      TakeNEffect(s, kind, n - 1);
      var t := TakeN(s, kind, n - 1);
      TakeFirstEffect(t, kind);
    }
  }

  /** `updateInvSlot`: replace the first stack similar to `search`, if there is one. */
  method UpdateInvSlot(inv: array<Option<Stack>>, search: Stack, replaceWith: Option<Stack>) returns (replaced: bool)
    modifies inv
    ensures replaced <==> exists i :: 0 <= i < inv.Length && Wants(SimilarTo(search), old(inv[i]))
    ensures replaced ==> var i := FirstWhere(old(inv[..]), SimilarTo(search));
      inv[..] == old(inv[..])[i := replaceWith] && forall j :: 0 <= j < i ==> !Wants(SimilarTo(search), old(inv[j]))
    ensures !replaced ==> inv[..] == old(inv[..])
  {
    var i := 0;
    while i < inv.Length
      invariant 0 <= i <= inv.Length
      invariant inv[..] == old(inv[..])
      invariant forall j :: 0 <= j < i ==> !Wants(SimilarTo(search), inv[j])
    {
      if inv[i].Some? && Similar(inv[i].value, search) {
        inv[i] := replaceWith;
        return true;
      }
      i := i + 1;
    }
    return false;
  }

  // ---------------------------------------------------------------------------
  // Nickname lookup
  // ---------------------------------------------------------------------------

  /** An online player: their account name and their nickname without colours. */
  datatype OnlinePlayer = OnlinePlayer(name: string, nick: string)

  predicate NameMatch(p: OnlinePlayer, name: string) {
    EqualsIgnoreCase(p.name, name)
  }

  predicate NickMatch(p: OnlinePlayer, name: string) {
    StartsWith(ToLower(p.nick), ToLower(name))
  }

  function Delta(p: OnlinePlayer, name: string): nat {
    if |p.nick| >= |name| then |p.nick| - |name| else |name| - |p.nick|
  }

  /** A player at which the scan stops: an exact name, or a nickname of exactly the name's length. */
  predicate Stops(p: OnlinePlayer, name: string) {
    NameMatch(p, name) || (NickMatch(p, name) && Delta(p, name) == 0)
  }

  /** The index of the first player at which the scan stops, or -1. */
  function FirstStop(ps: seq<OnlinePlayer>, name: string, from: nat): (r: int)
    ensures r == -1 || (from <= r < |ps| && Stops(ps[r], name))
    ensures forall j :: from <= j < |ps| && (r == -1 || j < r) ==> !Stops(ps[j], name)
    decreases |ps| - from
  {
    if from >= |ps| then -1
    else if Stops(ps[from], name) then from
    else FirstStop(ps, name, from + 1)
  }

  /** `found` is the earliest of the nickname matches in `ps[..n]` with the least length difference. */
  predicate BestNick(ps: seq<OnlinePlayer>, name: string, n: nat, found: Option<nat>)
    requires n <= |ps|
  {
    && (found.None? <==> forall j :: 0 <= j < n ==> !NickMatch(ps[j], name))
    && (found.Some? ==>
          && found.value < n && NickMatch(ps[found.value], name)
          && (forall j :: 0 <= j < n && NickMatch(ps[j], name) ==> Delta(ps[found.value], name) <= Delta(ps[j], name))
          && (forall j :: 0 <= j < found.value && NickMatch(ps[j], name) ==> Delta(ps[found.value], name) < Delta(ps[j], name)))
  }

  /** One more player scanned: a strictly better nickname match replaces the one found. */
  lemma BestNickStep(ps: seq<OnlinePlayer>, name: string, i: nat, found: Option<nat>, delta: nat)
    requires i < |ps| && BestNick(ps, name, i, found)
    requires found.Some? ==> delta == Delta(ps[found.value], name)
    ensures BestNick(ps, name, i + 1,
      if NickMatch(ps[i], name) && (found.None? || Delta(ps[i], name) < delta) then Some(i) else found)
  {
  }

  /**
   * `lookupNickedPlayer0`, returning the index of the player found.  The scan
   * stops at the first exact (case-insensitive) name, or at the first nickname
   * that starts with the name and is exactly as long; failing both, the
   * earliest best prefix match wins.
   */
  method LookupNickedPlayer(players: seq<OnlinePlayer>, name: string) returns (found: Option<nat>)
    ensures FirstStop(players, name, 0) != -1 ==> found == Some(FirstStop(players, name, 0))
    ensures FirstStop(players, name, 0) == -1 ==> BestNick(players, name, |players|, found)
  {
    found := None;
    var delta := 0;
    var i := 0;
    while i < |players|
      invariant 0 <= i <= |players|
      invariant FirstStop(players, name, i) == FirstStop(players, name, 0)
      invariant BestNick(players, name, i, found)
      invariant found.Some? ==> delta == Delta(players[found.value], name) && delta > 0
    {
      var player := players[i];
      if EqualsIgnoreCase(player.name, name) {
        return Some(i);
      }
      BestNickStep(players, name, i, found, delta);
      if StartsWith(ToLower(player.nick), ToLower(name)) {
        var curDelta := Delta(player, name);
        if found.None? || curDelta < delta {
          found := Some(i);
          delta := curDelta;
        }
        if curDelta == 0 {
          return;
        }
      }
      assert !Stops(players[i], name);
      i := i + 1;
    }
  }

  // ---------------------------------------------------------------------------
  // addItems, first phase: combining the inputs
  // ---------------------------------------------------------------------------

  /** Drops the inputs that `addItems` skips: null stacks and amounts below one. */
  function Usable(items: Slots): (r: Slots)
    ensures |r| == |items|
    ensures forall i :: 0 <= i < |items| ==>
      r[i] == (if items[i].Some? && items[i].value.amount >= 1 then items[i] else None)
  {
    if items == [] then []
    else
      var o := items[|items| - 1];
      Usable(items[..|items| - 1]) + [if o.Some? && o.value.amount >= 1 then o else None]
  }

  /** The inner combining loop from index `j`: first empty entry or first similar entry. */
  function Merge(c: Slots, item: Stack, j: nat): (r: Slots)
    ensures |r| == |c|
    decreases |c| - j
  {
    if j >= |c| then c
    else if c[j].None? then c[j := Some(item)]
    else if Similar(c[j].value, item) then c[j := Some(c[j].value.(amount := c[j].value.amount + item.amount))]
    else Merge(c, item, j + 1)
  }

  function Admit(c: Slots, o: Option<Stack>): (r: Slots)
    ensures |r| == |c|
  {
    if o.None? || o.value.amount < 1 then c else Merge(c, o.value, 0)
  }

  /** The `combined` array after the inputs are folded in, in order. */
  function Combine(len: nat, items: Slots): (r: Slots)
    ensures |r| == len
  {
    if items == [] then Nones(len) else Admit(Combine(len, items[..|items| - 1]), items[|items| - 1])
  }

  /** The combining loop over a fresh array as long as the input. */
  method CombineItems(items: Slots) returns (combined: array<Option<Stack>>)
    ensures fresh(combined)
    ensures combined[..] == Combine(|items|, items)
  {
    combined := new Option<Stack>[|items|](_ => None);
    assert combined[..] == Nones(|items|);
    var t := 0;
    while t < |items|
      invariant 0 <= t <= |items|
      invariant combined[..] == Combine(|items|, items[..t])
    {
      assert items[..t + 1][..t] == items[..t];
      var o := items[t];
      if o.Some? && o.value.amount >= 1 {
        var item := o.value;
        ghost var c := combined[..];
        var j := 0;
        while j < combined.Length
          invariant 0 <= j <= combined.Length
          invariant combined[..] == c
          invariant Merge(c, item, j) == Merge(c, item, 0)
        {
          if combined[j].None? {
            combined[j] := Some(item);
            break;
          }
          if Similar(combined[j].value, item) {
            combined[j] := Some(combined[j].value.(amount := combined[j].value.amount + item.amount));
            break;
          }
          j := j + 1;
        }
        assert combined[..] == Merge(c, item, 0);
      }
      t := t + 1;
    }
    assert items[..|items|] == items;
  }

  /** The first `n` entries are filled, the rest empty, and filled entries hold positive amounts. */
  predicate PrefixForm(c: Slots, n: nat) {
    && n <= |c|
    && (forall i :: 0 <= i < |c| ==> (c[i].Some? <==> i < n))
    && (forall i :: 0 <= i < n ==> c[i].value.amount >= 1)
  }

  /** No two filled entries are similar. */
  predicate DistinctKeys(c: Slots) {
    forall i, j :: 0 <= i < j < |c| && c[i].Some? && c[j].Some? ==> !Similar(c[i].value, c[j].value)
  }

  lemma {:induction false} MergeShape(c: Slots, item: Stack, j: nat, n: nat) returns (n': nat)
    requires PrefixForm(c, n) && n < |c| && DistinctKeys(c) && j <= n && item.amount >= 1
    requires forall i :: 0 <= i < j ==> !Similar(c[i].value, item)
    ensures n' <= n + 1 && PrefixForm(Merge(c, item, j), n') && DistinctKeys(Merge(c, item, j))
    decreases n - j
  {
    if c[j].None? {
      assert j == n;
      n' := n + 1;
    } else if Similar(c[j].value, item) {
      n' := n;
    } else {
      n' := MergeShape(c, item, j + 1, n);
    }
  }

  lemma {:induction false} MergeSum(c: Slots, item: Stack, j: nat, n: nat, k: Key)
    requires PrefixForm(c, n) && n < |c| && j <= n
    ensures Sum(Merge(c, item, j), ByKey(k)) == Sum(c, ByKey(k)) + SlotAmount(Some(item), ByKey(k))
    decreases n - j
  {
    if c[j].None? {
      SumUpdate(c, j, Some(item), ByKey(k));
    } else if Similar(c[j].value, item) {
      SumUpdate(c, j, Some(c[j].value.(amount := c[j].value.amount + item.amount)), ByKey(k));
    } else {
      MergeSum(c, item, j + 1, n, k);
    }
  }

  /** The shape of `combined`: a filled prefix, no longer than the input, of pairwise dissimilar stacks. */
  lemma {:induction false} CombineShape(len: nat, items: Slots) returns (n: nat)
    requires |items| <= len
    ensures n <= |items| && PrefixForm(Combine(len, items), n) && DistinctKeys(Combine(len, items))
    decreases |items|
  {
    if items == [] {
      n := 0;
    } else {
      var prev := items[..|items| - 1];
      var m := CombineShape(len, prev);
      var c := Combine(len, prev);
      var o := items[|items| - 1];
      if o.None? || o.value.amount < 1 {
        n := m;
      } else {
        n := MergeShape(c, o.value, 0, m);
      }
    }
  }

  /**
   * Combining keeps every key's total: similar inputs collapse into one entry
   * whose amount is the sum of theirs, and skipped inputs count for nothing.
   */
  lemma {:induction false} CombineSum(len: nat, items: Slots, k: Key)
    requires |items| <= len
    ensures Sum(Combine(len, items), ByKey(k)) == Sum(Usable(items), ByKey(k))
    decreases |items|
  {
    if items == [] {
      SumNones(len, ByKey(k));
    } else {
      var prev := items[..|items| - 1];
      CombineSum(len, prev, k);
      var m := CombineShape(len, prev);
      var o := items[|items| - 1];
      assert Usable(items) == Usable(prev) + [Usable(items)[|items| - 1]];
      SumAppend(Usable(prev), Usable(items)[|items| - 1], ByKey(k));
      if o.Some? && o.value.amount >= 1 {
        MergeSum(Combine(len, prev), o.value, 0, m, k);
      }
    }
  }

  // ---------------------------------------------------------------------------
  // addItems, second phase: storing one combined entry
  // ---------------------------------------------------------------------------

  /** The stack limit used for a material: the larger of `oversizedStacks` and its maximum. */
  function MaxFor(oversizedStacks: int, maxStack: string -> int, kind: string): int {
    if oversizedStacks > maxStack(kind) then oversizedStacks else maxStack(kind)
  }

  /**
   * The `while (true)` loop for one entry: top up the first partial stack, or
   * else fill the first empty slot with at most `max`; returns the new row and
   * what could not be stored.
   */
  function StoreOne(inv: Slots, item: Stack, max: int): (r: (Slots, Option<Stack>))
    requires max >= 1
    ensures |r.0| == |inv|
    decreases item.amount
  {
    var p := FirstWhere(inv, PartialOf(item, max));
    if p == -1 then
      var f := FirstWhere(inv, Empty);
      if f == -1 then (inv, Some(item))
      else if item.amount > max then
        StoreOne(inv[f := Some(item.(amount := max))], item.(amount := item.amount - max), max)
      else (inv[f := Some(item)], None)
    else
      var partial := inv[p].value;
      if item.amount + partial.amount <= max then
        (inv[p := Some(partial.(amount := item.amount + partial.amount))], None)
      else
        StoreOne(inv[p := Some(partial.(amount := max))], item.(amount := item.amount + partial.amount - max), max)
  }

  /** The `while (true)` loop for one entry, updating the inventory in place. */
  method StoreItem(inv: array<Option<Stack>>, item: Stack, max: int) returns (rest: Option<Stack>)
    requires max >= 1
    modifies inv
    ensures (inv[..], rest) == StoreOne(old(inv[..]), item, max)
  {
    var cur := item;
    while true
      invariant StoreOne(inv[..], cur, max) == StoreOne(old(inv[..]), item, max)
      decreases cur.amount
    {
      var firstPartial := FirstPartial(inv, Some(cur), max);
      if firstPartial == -1 {
        var firstFree := FirstEmpty(inv);
        if firstFree == -1 {
          return Some(cur);
        }
        if cur.amount > max {
          inv[firstFree] := Some(cur.(amount := max));
          cur := cur.(amount := cur.amount - max);
        } else {
          inv[firstFree] := Some(cur);
          return None;
        }
      } else {
        var partialItem := inv[firstPartial].value;
        var amount := cur.amount;
        var partialAmount := partialItem.amount;
        if amount + partialAmount <= max {
          inv[firstPartial] := Some(partialItem.(amount := amount + partialAmount));
          return None;
        }
        inv[firstPartial] := Some(partialItem.(amount := max));
        cur := cur.(amount := amount + partialAmount - max);
      }
    }
  }

  predicate NoEmpty(s: Slots) {
    forall i :: 0 <= i < |s| ==> s[i].Some?
  }

  /**
   * Storing one entry keeps every key's total: what is stored plus what is
   * left equals what was there plus the entry.
   */
  lemma {:induction false} StoreOneSum(inv: Slots, item: Stack, max: int, k: Key)
    requires max >= 1
    ensures var r := StoreOne(inv, item, max);
      Sum(r.0, ByKey(k)) + SlotAmount(r.1, ByKey(k)) == Sum(inv, ByKey(k)) + SlotAmount(Some(item), ByKey(k))
    decreases item.amount
  {
    var p := FirstWhere(inv, PartialOf(item, max));
    if p == -1 {
      var f := FirstWhere(inv, Empty);
      if f != -1 {
        if item.amount > max {
          SumUpdate(inv, f, Some(item.(amount := max)), ByKey(k));
          StoreOneSum(inv[f := Some(item.(amount := max))], item.(amount := item.amount - max), max, k);
        } else {
          SumUpdate(inv, f, Some(item), ByKey(k));
        }
      }
    } else {
      var partial := inv[p].value;
      if item.amount + partial.amount <= max {
        SumUpdate(inv, p, Some(partial.(amount := item.amount + partial.amount)), ByKey(k));
      } else {
        SumUpdate(inv, p, Some(partial.(amount := max)), ByKey(k));
        StoreOneSum(inv[p := Some(partial.(amount := max))], item.(amount := item.amount + partial.amount - max), max, k);
      }
    }
  }

  /** Storing one entry writes only stacks similar to it, of at most `max`. */
  lemma {:induction false} StoreOneWrites(inv: Slots, item: Stack, max: int)
    requires max >= 1
    ensures var r := StoreOne(inv, item, max);
      forall i :: 0 <= i < |inv| && r.0[i] != inv[i] ==>
        r.0[i].Some? && Similar(r.0[i].value, item) && r.0[i].value.amount <= max
    decreases item.amount
  {
    var p := FirstWhere(inv, PartialOf(item, max));
    if p == -1 {
      var f := FirstWhere(inv, Empty);
      if f != -1 && item.amount > max {
        StoreOneWrites(inv[f := Some(item.(amount := max))], item.(amount := item.amount - max), max);
      }
    } else {
      var partial := inv[p].value;
      if item.amount + partial.amount > max {
        StoreOneWrites(inv[p := Some(partial.(amount := max))], item.(amount := item.amount + partial.amount - max), max);
      }
    }
  }

  /**
   * Something is left over only once the row has no empty slot and no
   * partial stack similar to the entry; what is left is similar to it.
   */
  lemma {:induction false} StoreOneLeft(inv: Slots, item: Stack, max: int)
    requires max >= 1
    ensures var r := StoreOne(inv, item, max);
      r.1.Some? ==> NoEmpty(r.0) && FirstWhere(r.0, PartialOf(item, max)) == -1 && Similar(r.1.value, item)
    decreases item.amount
  {
    var p := FirstWhere(inv, PartialOf(item, max));
    if p == -1 {
      var f := FirstWhere(inv, Empty);
      if f == -1 {
        assert NoEmpty(inv) by {
          forall i | 0 <= i < |inv| ensures inv[i].Some? {
            assert !Wants(Empty, inv[i]);
          }
        }
      } else if item.amount > max {
        var inv' := inv[f := Some(item.(amount := max))];
        var item' := item.(amount := item.amount - max);
        StoreOneLeft(inv', item', max);
        PartialSameKey(StoreOne(inv', item', max).0, item', item, max);
      }
    } else {
      var partial := inv[p].value;
      if item.amount + partial.amount > max {
        var inv' := inv[p := Some(partial.(amount := max))];
        var item' := item.(amount := item.amount + partial.amount - max);
        StoreOneLeft(inv', item', max);
        PartialSameKey(StoreOne(inv', item', max).0, item', item, max);
      }
    }
  }

  /** Partial-stack search depends on the item's key only, not on its amount. */
  lemma PartialSameKey(s: Slots, a: Stack, b: Stack, max: int)
    requires Similar(a, b)
    ensures FirstWhere(s, PartialOf(a, max)) == FirstWhere(s, PartialOf(b, max))
  {
    var ra := FirstWhere(s, PartialOf(a, max));
    var rb := FirstWhere(s, PartialOf(b, max));
    if ra != rb {
      if ra == -1 || (rb != -1 && rb < ra) {
        assert Wants(PartialOf(a, max), s[rb]);
      } else {
        assert Wants(PartialOf(b, max), s[ra]);
      }
    }
  }

  // ---------------------------------------------------------------------------
  // addItems, second phase: all entries
  // ---------------------------------------------------------------------------

  /** The inventory after storing every combined entry, and what was left of each. */
  function StoreAll(inv: Slots, combined: Slots, oversizedStacks: int, maxStack: string -> int): (r: (Slots, Slots))
    requires forall kind :: kind != AIR ==> maxStack(kind) >= 1
    ensures |r.0| == |inv| && |r.1| == |combined|
  {
    if combined == [] then (inv, [])
    else
      var prev := StoreAll(inv, combined[..|combined| - 1], oversizedStacks, maxStack);
      var o := combined[|combined| - 1];
      if o.None? || o.value.kind == AIR then (prev.0, prev.1 + [None])
      else
        var st := StoreOne(prev.0, o.value, MaxFor(oversizedStacks, maxStack, o.value.kind));
        (st.0, prev.1 + [st.1])
  }

  /**
   * Storing all entries keeps every key's total: the inventory's amount plus
   * the leftovers' equals the inventory's before plus the entries', except
   * for AIR entries, which are skipped.
   */
  lemma {:induction false} StoreAllSum(inv: Slots, combined: Slots, oversizedStacks: int, maxStack: string -> int, k: Key)
    requires forall kind :: kind != AIR ==> maxStack(kind) >= 1
    ensures var r := StoreAll(inv, combined, oversizedStacks, maxStack);
      Sum(r.0, ByKey(k)) + Sum(r.1, ByKey(k)) == Sum(inv, ByKey(k)) + (if k.kind == AIR then 0 else Sum(combined, ByKey(k)))
    decreases |combined|
  {
    if combined != [] {
      var init := combined[..|combined| - 1];
      var o := combined[|combined| - 1];
      var prev := StoreAll(inv, init, oversizedStacks, maxStack);
      StoreAllSum(inv, init, oversizedStacks, maxStack, k);
      SumAppend(init, o, ByKey(k));
      assert combined == init + [o];
      if o.None? || o.value.kind == AIR {
        SumAppend(prev.1, None, ByKey(k));
      } else {
        var max := MaxFor(oversizedStacks, maxStack, o.value.kind);
        StoreOneSum(prev.0, o.value, max, k);
        SumAppend(prev.1, StoreOne(prev.0, o.value, max).1, ByKey(k));
      }
    }
  }

  /** Every slot that differs from the original holds a non-AIR stack within its material's limit. */
  predicate WrittenWithin(before: Slots, after: Slots, oversizedStacks: int, maxStack: string -> int)
    requires |before| == |after|
  {
    forall i :: 0 <= i < |after| && after[i] != before[i] ==>
      && after[i].Some? && after[i].value.kind != AIR
      && after[i].value.amount <= MaxFor(oversizedStacks, maxStack, after[i].value.kind)
  }

  /** No slot is written above the limit of its material, and AIR is never written. */
  lemma {:induction false} StoreAllWrites(inv: Slots, combined: Slots, oversizedStacks: int, maxStack: string -> int)
    requires forall kind :: kind != AIR ==> maxStack(kind) >= 1
    ensures WrittenWithin(inv, StoreAll(inv, combined, oversizedStacks, maxStack).0, oversizedStacks, maxStack)
    decreases |combined|
  {
    if combined != [] {
      var init := combined[..|combined| - 1];
      var o := combined[|combined| - 1];
      StoreAllWrites(inv, init, oversizedStacks, maxStack);
      if o.Some? && o.value.kind != AIR {
        var prev := StoreAll(inv, init, oversizedStacks, maxStack);
        StoreOneWrites(prev.0, o.value, MaxFor(oversizedStacks, maxStack, o.value.kind));
      }
    }
  }

  /**
   * A leftover is similar to its combined entry, never AIR, and arises only
   * when the inventory ends up without an empty slot.
   */
  lemma {:induction false} StoreAllLeft(inv: Slots, combined: Slots, oversizedStacks: int, maxStack: string -> int)
    requires forall kind :: kind != AIR ==> maxStack(kind) >= 1
    ensures var r := StoreAll(inv, combined, oversizedStacks, maxStack);
      forall i :: 0 <= i < |combined| && r.1[i].Some? ==>
        combined[i].Some? && Similar(r.1[i].value, combined[i].value) && r.1[i].value.kind != AIR
    ensures var r := StoreAll(inv, combined, oversizedStacks, maxStack);
      (exists i :: 0 <= i < |combined| && r.1[i].Some?) ==> NoEmpty(r.0)
    decreases |combined|
  {
    if combined != [] {
      var init := combined[..|combined| - 1];
      var o := combined[|combined| - 1];
      var prev := StoreAll(inv, init, oversizedStacks, maxStack);
      var r := StoreAll(inv, combined, oversizedStacks, maxStack);
      StoreAllLeft(inv, init, oversizedStacks, maxStack);
      if o.Some? && o.value.kind != AIR {
        var max := MaxFor(oversizedStacks, maxStack, o.value.kind);
        StoreOneLeft(prev.0, o.value, max);
        StoreOneWrites(prev.0, o.value, max);
        if exists i :: 0 <= i < |init| && prev.1[i].Some? {
          assert NoEmpty(r.0) by {
            forall j | 0 <= j < |r.0| ensures r.0[j].Some? {
              assert prev.0[j].Some?;
            }
          }
        }
      }
      forall i | 0 <= i < |combined| && r.1[i].Some?
        ensures combined[i].Some? && Similar(r.1[i].value, combined[i].value) && r.1[i].value.kind != AIR
      {
        if i < |init| {
          assert r.1[i] == prev.1[i];
          assert combined[i] == init[i];
        }
      }
      if exists i :: 0 <= i < |combined| && r.1[i].Some? {
        var i :| 0 <= i < |combined| && r.1[i].Some?;
        if i < |init| {
          assert prev.1[i] == r.1[i];
        }
      }
    }
  }

  /** The leftover map: combined index to the stack that did not fit. */
  function ToMap(left: Slots): map<int, Stack> {
    map i | 0 <= i < |left| && left[i].Some? :: left[i].value
  }

  /** `addItems` without the player-inventory truncation. */
  method AddItemsTo(inv: array<Option<Stack>>, oversizedStacks: int, items: Slots, maxStack: string -> int)
    returns (left: map<int, Stack>)
    requires forall kind :: kind != AIR ==> maxStack(kind) >= 1
    modifies inv
    ensures var r := StoreAll(old(inv[..]), Combine(|items|, items), oversizedStacks, maxStack);
      inv[..] == r.0 && left == ToMap(r.1)
  {
    var combined := CombineItems(items);
    left := map[];
    ghost var leftSeq: Slots := [];
    var i := 0;
    while i < combined.Length
      invariant 0 <= i <= combined.Length
      invariant combined[..] == Combine(|items|, items)
      invariant (inv[..], leftSeq) == StoreAll(old(inv[..]), combined[..i], oversizedStacks, maxStack)
      invariant left == ToMap(leftSeq)
    {
      assert combined[..i + 1][..i] == combined[..i];
      var item := combined[i];
      if item.Some? && item.value.kind != AIR {
        var maxAmount := MaxFor(oversizedStacks, maxStack, item.value.kind);
        var rest := StoreItem(inv, item.value, maxAmount);
        if rest.Some? {
          left := left[i := rest.value];
        }
        leftSeq := leftSeq + [rest];
      } else {
        leftSeq := leftSeq + [None];
      }
      i := i + 1;
    }
    assert combined[..combined.Length] == combined[..];
  }

  /** `isCombinedInv`: a player inventory with more than the usable slots. */
  predicate IsCombinedInv(isPlayerInventory: bool, length: int) {
    isPlayerInventory && length > USABLE_PLAYER_INV_SIZE
  }

  /** The inventory and leftovers after `addItems`. */
  function AddItemsSpec(inv: Slots, isPlayerInventory: bool, oversizedStacks: int, items: Slots, maxStack: string -> int)
    : (r: (Slots, Slots))
    requires forall kind :: kind != AIR ==> maxStack(kind) >= 1
    ensures |r.0| == |inv| && |r.1| == |items|
  {
    if IsCombinedInv(isPlayerInventory, |inv|) then
      var st := StoreAll(inv[..USABLE_PLAYER_INV_SIZE], Combine(|items|, items), oversizedStacks, maxStack);
      (st.0 + inv[USABLE_PLAYER_INV_SIZE..], st.1)
    else
      StoreAll(inv, Combine(|items|, items), oversizedStacks, maxStack)
  }

  /**
   * `addItems`: a combined player inventory is worked on through a copy of
   * its 36 usable slots, which is then written back.
   */
  method AddItems(inv: array<Option<Stack>>, isPlayerInventory: bool, oversizedStacks: int, items: Slots,
                  maxStack: string -> int) returns (left: map<int, Stack>)
    requires forall kind :: kind != AIR ==> maxStack(kind) >= 1
    modifies inv
    ensures var r := AddItemsSpec(old(inv[..]), isPlayerInventory, oversizedStacks, items, maxStack);
      inv[..] == r.0 && left == ToMap(r.1)
  {
    if isPlayerInventory && inv.Length > USABLE_PLAYER_INV_SIZE {
      var fake := new Option<Stack>[USABLE_PLAYER_INV_SIZE];
      forall i | 0 <= i < USABLE_PLAYER_INV_SIZE {
        fake[i] := inv[i];
      }
      assert fake[..] == inv[..USABLE_PLAYER_INV_SIZE];
      ghost var pre := fake[..];
      assert pre == old(inv[..])[..USABLE_PLAYER_INV_SIZE];
      left := AddItemsTo(fake, oversizedStacks, items, maxStack);
      ghost var stored := fake[..];
      ghost var st := StoreAll(old(inv[..])[..USABLE_PLAYER_INV_SIZE], Combine(|items|, items), oversizedStacks, maxStack);
      assert stored == StoreAll(pre, Combine(|items|, items), oversizedStacks, maxStack).0;
      assert stored == st.0 && left == ToMap(st.1);
      for i := 0 to fake.Length
        invariant fake[..] == stored
        invariant inv[..i] == fake[..i]
        invariant inv[USABLE_PLAYER_INV_SIZE..] == old(inv[USABLE_PLAYER_INV_SIZE..])
      {
        inv[i] := fake[i];
      }
      assert inv[..] == inv[..USABLE_PLAYER_INV_SIZE] + inv[USABLE_PLAYER_INV_SIZE..];
      assert inv[..] == st.0 + old(inv[..])[USABLE_PLAYER_INV_SIZE..];
    } else {
      left := AddItemsTo(inv, oversizedStacks, items, maxStack);
    }
  }

  /** The slots `addItems` works on: the usable 36 of a combined player inventory, else all. */
  function Worked(inv: Slots, isPlayerInventory: bool): Slots {
    if IsCombinedInv(isPlayerInventory, |inv|) then inv[..USABLE_PLAYER_INV_SIZE] else inv
  }

  /**
   * Conservation for `addItems`: for every non-AIR key, the amount in the
   * inventory plus the leftovers equals the amount before plus the amount of
   * the usable inputs.
   */
  lemma AddItemsSum(inv: Slots, isPlayerInventory: bool, oversizedStacks: int, items: Slots, maxStack: string -> int, k: Key)
    requires forall kind :: kind != AIR ==> maxStack(kind) >= 1
    requires k.kind != AIR
    ensures var r := AddItemsSpec(inv, isPlayerInventory, oversizedStacks, items, maxStack);
      Sum(r.0, ByKey(k)) + Sum(r.1, ByKey(k)) == Sum(inv, ByKey(k)) + Sum(Usable(items), ByKey(k))
  {
    var combined := Combine(|items|, items);
    CombineSum(|items|, items, k);
    var w := Worked(inv, isPlayerInventory);
    StoreAllSum(w, combined, oversizedStacks, maxStack, k);
    if IsCombinedInv(isPlayerInventory, |inv|) {
      var st := StoreAll(w, combined, oversizedStacks, maxStack);
      var rest := inv[USABLE_PLAYER_INV_SIZE..];
      SumConcat(st.0, rest, ByKey(k));
      assert inv == w + rest;
      SumConcat(w, rest, ByKey(k));
    }
  }

  /**
   * `addItems` writes only the slots it works on, never above the limit of
   * the stored material, and leaves the slots past 36 of a combined player
   * inventory alone.
   */
  lemma AddItemsWrites(inv: Slots, isPlayerInventory: bool, oversizedStacks: int, items: Slots, maxStack: string -> int)
    requires forall kind :: kind != AIR ==> maxStack(kind) >= 1
    ensures WrittenWithin(inv, AddItemsSpec(inv, isPlayerInventory, oversizedStacks, items, maxStack).0, oversizedStacks, maxStack)
    ensures IsCombinedInv(isPlayerInventory, |inv|) ==>
      AddItemsSpec(inv, isPlayerInventory, oversizedStacks, items, maxStack).0[USABLE_PLAYER_INV_SIZE..] == inv[USABLE_PLAYER_INV_SIZE..]
  {
    var w := Worked(inv, isPlayerInventory);
    StoreAllWrites(w, Combine(|items|, items), oversizedStacks, maxStack);
    var r := AddItemsSpec(inv, isPlayerInventory, oversizedStacks, items, maxStack);
    if IsCombinedInv(isPlayerInventory, |inv|) {
      forall i | 0 <= i < |inv| && r.0[i] != inv[i]
        ensures r.0[i].Some? && r.0[i].value.kind != AIR
        ensures r.0[i].value.amount <= MaxFor(oversizedStacks, maxStack, r.0[i].value.kind)
      {
        assert i < USABLE_PLAYER_INV_SIZE;
        assert w[i] == inv[i];
      }
    }
  }

  /** `addItems` returns leftovers only when the slots it works on have no empty one left. */
  lemma AddItemsLeft(inv: Slots, isPlayerInventory: bool, oversizedStacks: int, items: Slots, maxStack: string -> int)
    requires forall kind :: kind != AIR ==> maxStack(kind) >= 1
    ensures var r := AddItemsSpec(inv, isPlayerInventory, oversizedStacks, items, maxStack);
      ToMap(r.1) != map[] ==> NoEmpty(Worked(r.0, isPlayerInventory))
    ensures var r := AddItemsSpec(inv, isPlayerInventory, oversizedStacks, items, maxStack);
      forall i :: i in ToMap(r.1) ==> 0 <= i < |items| && ToMap(r.1)[i].kind != AIR
  {
    var combined := Combine(|items|, items);
    var w := Worked(inv, isPlayerInventory);
    StoreAllLeft(w, combined, oversizedStacks, maxStack);
    var r := AddItemsSpec(inv, isPlayerInventory, oversizedStacks, items, maxStack);
    if ToMap(r.1) != map[] {
      var i :| i in ToMap(r.1);
      assert r.1[i].Some?;
      if IsCombinedInv(isPlayerInventory, |inv|) {
        assert Worked(r.0, isPlayerInventory) == StoreAll(w, combined, oversizedStacks, maxStack).0;
      }
    }
  }
}
