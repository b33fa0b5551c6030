/** The frame and the interior of a menu laid out nine slots to a row. */
module InventoryBorder {

  /** A slot lies on the frame: first or last row, first or ninth column. */
  predicate IsBorder(rows: int, index: nat) {
    var row := index / 9;
    var column := index % 9 + 1;
    row == 0 || row == rows - 1 || column == 1 || column == 9
  }

  /** The slots below `n`, in ascending order, that are (`border`) or are not on the frame. */
  function Below(rows: int, n: nat, border: bool): (r: seq<int>)
    ensures forall k :: 0 <= k < |r| ==> 0 <= r[k] < n
  {
    if n == 0 then []
    else Below(rows, n - 1, border) + (if IsBorder(rows, n - 1) == border then [n - 1] else [])
  }

  function SlotCount(rows: int): nat {
    if rows <= 0 then 0 else rows * 9
  }

  /** The list `getBorders(rows)` returns. */
  function Borders(rows: int): seq<int> {
    Below(rows, SlotCount(rows), true)
  }

  /** The list `getInsideBorders(rows)` returns. */
  function Inside(rows: int): seq<int> {
    Below(rows, SlotCount(rows), false)
  }

  /** `getBorders`. */
  method GetBorders(rows: int) returns (borders: seq<int>)
    ensures borders == Borders(rows)
  {
    borders := [];
    var index := 0;
    while index < rows * 9
      invariant 0 <= index && (index <= rows * 9 || index == 0)
      invariant borders == Below(rows, index, true)
    {
      var row := index / 9;
      var column := index % 9 + 1;
      if row == 0 || row == rows - 1 || column == 1 || column == 9 {
        borders := borders + [index];
      }
      index := index + 1;
    }
  }

  /** `getInsideBorders`. */
  method GetInsideBorders(rows: int) returns (inner: seq<int>)
    ensures inner == Inside(rows)
  {
    inner := [];
    var index := 0;
    while index < rows * 9
      invariant 0 <= index && (index <= rows * 9 || index == 0)
      invariant inner == Below(rows, index, false)
    {
      var row := index / 9;
      var column := index % 9 + 1;
      if row == 0 || row == rows - 1 || column == 1 || column == 9 {
        index := index + 1;
        continue;
      }
      inner := inner + [index];
      index := index + 1;
    }
  }

  predicate StrictlyIncreasing(s: seq<int>) {
    forall i, j :: 0 <= i < j < |s| ==> s[i] < s[j]
  }

  /** Each list is ascending and holds exactly the slots of its kind below `n`. */
  lemma {:induction false} BelowMembers(rows: int, n: nat, border: bool)
    ensures StrictlyIncreasing(Below(rows, n, border))
    ensures forall x :: x in Below(rows, n, border) <==> 0 <= x < n && IsBorder(rows, x) == border
  {
    if n > 0 {
      BelowMembers(rows, n - 1, border);
    }
  }

  /**
   * `getBorders` and `getInsideBorders` are ascending and split the slots of
   * the menu between them: every slot is in exactly one of the two; with no
   * rows both are empty.
   */
  lemma BordersPartition(rows: int)
    ensures StrictlyIncreasing(Borders(rows)) && StrictlyIncreasing(Inside(rows))
    ensures forall x :: x in Borders(rows) <==> 0 <= x < SlotCount(rows) && IsBorder(rows, x)
    ensures forall x :: x in Inside(rows) <==> 0 <= x < SlotCount(rows) && !IsBorder(rows, x)
    ensures forall x :: 0 <= x < SlotCount(rows) ==> (x in Borders(rows) <==> x !in Inside(rows))
    ensures rows <= 0 ==> Borders(rows) == [] && Inside(rows) == []
  {
    BelowMembers(rows, SlotCount(rows), true);
    BelowMembers(rows, SlotCount(rows), false);
  }

  /** The interior slots of the first `k` columns of row `j`. */
  lemma {:induction false} RowPrefixCount(rows: int, j: nat, k: nat)
    requires k <= 9 && j < rows
    ensures |Below(rows, 9 * j + k, false)| == |Below(rows, 9 * j, false)| +
      (if 0 < j < rows - 1 then (if k <= 1 then 0 else if k <= 8 then k - 1 else 7) else 0)
  {
    if k > 0 {
      RowPrefixCount(rows, j, k - 1);
      var x := 9 * j + k - 1;
      assert x / 9 == j && x % 9 == k - 1;
      assert IsBorder(rows, x) <==> (j == 0 || j == rows - 1 || k == 1 || k == 9);
      assert Below(rows, 9 * j + k, false) ==
        Below(rows, x, false) + (if IsBorder(rows, x) == false then [x] else []);
    }
  }

  /** The interior slots of the first `j` rows. */
  lemma {:induction false} RowsCount(rows: int, j: nat)
    requires rows >= 2 && j <= rows
    ensures |Below(rows, 9 * j, false)| == 7 * (if j <= 1 then 0 else if j < rows then j - 1 else rows - 2)
  {
    if j > 0 {
      RowsCount(rows, j - 1);
      RowPrefixCount(rows, j - 1, 9);
    }
  }

  /** A menu of two rows or more has (rows - 2) * 7 interior slots. */
  lemma InsideCount(rows: int)
    requires rows >= 2
    ensures |Inside(rows)| == (rows - 2) * 7
  {
    RowsCount(rows, rows);
    assert SlotCount(rows) == 9 * rows;
  }
}
