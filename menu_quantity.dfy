/**
 * The step by which a menu changes a drop chance, and the rotation through
 * the available steps.  Percentages are kept in tenths of a percent, so
 * 0.1% is 1 and 20% is 200.
 */
module MenuQuantity {
  import opened Wrappers

  datatype Quantity = OneTenth | Half | One | Two | Five | Ten | Twenty

  /** The amount in tenths of a percent. */
  function Tenths(q: Quantity): nat {
    match q
    case OneTenth => 1
    case Half => 5
    case One => 10
    case Two => 20
    case Five => 50
    case Ten => 100
    case Twenty => 200
  }

  /** `values()`: the declaration order. */
  const VALUES: seq<Quantity> := [OneTenth, Half, One, Two, Five, Ten, Twenty]

  predicate Ascending(s: seq<Quantity>) {
    forall i, j :: 0 <= i < j < |s| ==> Tenths(s[i]) < Tenths(s[j])
  }

  predicate Distinct<T(==)>(s: seq<T>) {
    forall i, j :: 0 <= i < j < |s| ==> s[i] != s[j]
  }

  /** The quantities of `s`, in order, that are at least 1% unless decimals are included. */
  function Keep(s: seq<Quantity>, includeDecimals: bool): (r: seq<Quantity>)
    ensures forall q :: q in r <==> q in s && (includeDecimals || Tenths(q) >= 10)
    ensures |r| <= |s|
  {
    if s == [] then []
    else (if includeDecimals || Tenths(s[0]) >= 10 then [s[0]] else []) + Keep(s[1..], includeDecimals)
  }

  /** Keeping some quantities of an ascending list leaves it ascending. */
  lemma {:induction false} KeepAscending(s: seq<Quantity>, includeDecimals: bool)
    requires Ascending(s)
    ensures Ascending(Keep(s, includeDecimals))
  {
    if s != [] {
      var tail := s[1..];
      AscendingTail(s);
      KeepAscending(tail, includeDecimals);
      var rest := Keep(tail, includeDecimals);
      if includeDecimals || Tenths(s[0]) >= 10 {
        forall k | 0 <= k < |rest|
          ensures Tenths(s[0]) < Tenths(rest[k])
        {
          assert rest[k] in tail;
        }
        AscendingCons(s[0], rest);
      }
    }
  }

  lemma AscendingTail(s: seq<Quantity>)
    requires Ascending(s) && s != []
    ensures Ascending(s[1..])
    ensures forall q :: q in s[1..] ==> Tenths(s[0]) < Tenths(q)
  {
    var tail := s[1..];
    assert forall k :: 0 <= k < |tail| ==> tail[k] == s[k + 1];
  }

  lemma AscendingCons(x: Quantity, t: seq<Quantity>)
    requires Ascending(t)
    requires forall k :: 0 <= k < |t| ==> Tenths(x) < Tenths(t[k])
    ensures Ascending([x] + t)
  {
    var r := [x] + t;
    assert forall k :: 0 < k < |r| ==> r[k] == t[k - 1];
  }

  /** `compileQuantities`. */
  function Compile(includeDecimals: bool): seq<Quantity> {
    Keep(VALUES, includeDecimals)
  }

  /** The declaration order lists every quantity once, in ascending amount. */
  lemma ValuesAscending()
    ensures Ascending(VALUES) && forall q :: q in VALUES
  {
    forall i, j | 0 <= i < j < |VALUES|
      ensures Tenths(VALUES[i]) < Tenths(VALUES[j])
    {
      assert Tenths(VALUES[i]) < Tenths(VALUES[i + 1]) <= Tenths(VALUES[j]);
    }
    forall q ensures q in VALUES {
      match q
      case OneTenth => assert VALUES[0] == q;
      case Half => assert VALUES[1] == q;
      case One => assert VALUES[2] == q;
      case Two => assert VALUES[3] == q;
      case Five => assert VALUES[4] == q;
      case Ten => assert VALUES[5] == q;
      case Twenty => assert VALUES[6] == q;
    }
  }

  /**
   * With decimals every quantity is kept; without them exactly those of 1%
   * and more; either way in declaration order, which is ascending (and so
   * fixes the list), so no quantity appears twice.
   */
  lemma CompileContents(includeDecimals: bool)
    ensures forall q :: q in Compile(includeDecimals) <==> includeDecimals || Tenths(q) >= 10
    ensures Ascending(Compile(includeDecimals)) && Distinct(Compile(includeDecimals))
  {
    ValuesAscending();
    KeepAscending(VALUES, includeDecimals);
    var r := Compile(includeDecimals);
    forall i, j | 0 <= i < j < |r|
      ensures r[i] != r[j]
    {
      assert Tenths(r[i]) < Tenths(r[j]);
    }
  }

  /** The first index of `x` in `s`. */
  function IndexOf<T(==)>(s: seq<T>, x: T): (r: nat)
    requires x in s
    ensures r < |s| && s[r] == x
    ensures forall j :: 0 <= j < r ==> s[j] != x
  {
    if s[0] == x then 0 else 1 + IndexOf(s[1..], x)
  }

  /**
   * `Common.getNext` over a list: the element after (or before) `x`,
   * wrapping from the last to the first (or the first to the last).
   * An element not in the list gives `None`.
   */
  function Step<T(==)>(s: seq<T>, x: T, forward: bool): (r: Option<T>)
    ensures r.Some? <==> x in s
    ensures r.Some? ==> r.value in s
  {
    if x !in s then None
    else
      var i := IndexOf(s, x);
      Some(s[if forward then (if i + 1 < |s| then i + 1 else 0) else (if i > 0 then i - 1 else |s| - 1)])
  }

  /** `next(allowDecimals)`. */
  function Next(q: Quantity, allowDecimals: bool): Option<Quantity> {
    Step(Compile(allowDecimals), q, true)
  }

  /** `previous(allowDecimals)`. */
  function Previous(q: Quantity, allowDecimals: bool): Option<Quantity> {
    Step(Compile(allowDecimals), q, false)
  }

  /** In a list without repeats, the first index of the element at `i` is `i`. */
  lemma IndexOfDistinct<T>(s: seq<T>, i: nat)
    requires Distinct(s) && i < |s|
    ensures IndexOf(s, s[i]) == i
  {
  }

  /** In a list without repeats, stepping forward and then back (or back and then forward) returns to the start. */
  lemma StepInverse<T>(s: seq<T>, x: T)
    requires Distinct(s) && x in s
    ensures Step(s, Step(s, x, true).value, false) == Some(x)
    ensures Step(s, Step(s, x, false).value, true) == Some(x)
  {
    var i := IndexOf(s, x);
    IndexOfDistinct(s, if i + 1 < |s| then i + 1 else 0);
    IndexOfDistinct(s, if i > 0 then i - 1 else |s| - 1);
  }

  /**
   * In a list without repeats, the element at `i` steps forward to the
   * next index, the last one to the first, and back to the previous
   * index, the first one to the last.
   */
  lemma StepPositions<T>(s: seq<T>, i: nat)
    requires Distinct(s) && i < |s|
    ensures i + 1 < |s| ==> Step(s, s[i], true) == Some(s[i + 1])
    ensures i == |s| - 1 ==> Step(s, s[i], true) == Some(s[0])
    ensures i > 0 ==> Step(s, s[i], false) == Some(s[i - 1])
    ensures i == 0 ==> Step(s, s[i], false) == Some(s[|s| - 1])
  {
    IndexOfDistinct(s, i);
  }

  /** In an ascending list the first element has the smallest amount and the last the largest. */
  lemma AscendingEnds(s: seq<Quantity>, x: Quantity)
    requires Ascending(s) && x in s
    ensures Tenths(s[0]) <= Tenths(x) <= Tenths(s[|s| - 1])
  {
    var i := IndexOf(s, x);
    if i > 0 {
      assert Tenths(s[0]) < Tenths(s[i]);
    }
    if i < |s| - 1 {
      assert Tenths(s[i]) < Tenths(s[|s| - 1]);
    }
  }

  /** The compiled list starts at the smallest quantity offered and ends at twenty percent. */
  lemma CompileEnds(includeDecimals: bool)
    ensures |Compile(includeDecimals)| > 0
    ensures Compile(includeDecimals)[0] == if includeDecimals then OneTenth else One
    ensures Compile(includeDecimals)[|Compile(includeDecimals)| - 1] == Twenty
  {
    var s := Compile(includeDecimals);
    CompileContents(includeDecimals);
    AscendingEnds(s, if includeDecimals then OneTenth else One);
    AscendingEnds(s, Twenty);
    assert s[0] in s && s[|s| - 1] in s;
  }

  /** In a list without repeats, the last element steps forward to the first, and the first back to the last. */
  lemma StepEnds<T>(s: seq<T>)
    requires Distinct(s) && |s| > 0
    ensures Step(s, s[|s| - 1], true) == Some(s[0])
    ensures Step(s, s[0], false) == Some(s[|s| - 1])
  {
    StepPositions(s, |s| - 1);
    StepPositions(s, 0);
  }

  /** Twenty percent, the largest quantity, wraps forward to the smallest one offered, and back. */
  lemma TwentyWraps(allowDecimals: bool)
    ensures Next(Twenty, allowDecimals) == Some(if allowDecimals then OneTenth else One)
    ensures Previous(if allowDecimals then OneTenth else One, allowDecimals) == Some(Twenty)
  {
    CompileContents(allowDecimals);
    CompileEnds(allowDecimals);
    StepEnds(Compile(allowDecimals));
  }

  /**
   * The rotation: `next` gives the following quantity and wraps to the
   * first, `previous` the preceding one and wraps to the last, and each
   * undoes the other.
   */
  lemma Rotation(q: Quantity, allowDecimals: bool)
    requires q in Compile(allowDecimals)
    ensures Previous(Next(q, allowDecimals).value, allowDecimals) == Some(q)
    ensures Next(Previous(q, allowDecimals).value, allowDecimals) == Some(q)
  {
    var s := Compile(allowDecimals);
    CompileContents(allowDecimals);
    assert Distinct(s);
    StepInverse(s, q);
  }
}
