/**
 * A menu that lists items over several pages, with previous/next buttons,
 * optional header and footer rows, and the page count in its title.
 */
module MenuPagged {
  import opened Wrappers
  import opened Strings

  /** The overridable settings of a paged menu, with their defaults below. */
  datatype Settings = Settings(
    useHeader: bool,
    useFooter: bool,
    useBackground: bool,
    addPageNumbers: bool,
    startingSlot: int)

  const DEFAULTS: Settings := Settings(false, false, true, true, 0)

  /** The previous and next buttons: empty when there is a single page. */
  datatype Button = EmptyButton | PreviousButton(canGo: bool) | NextButton(canGo: bool)

  /** What a slot shows. */
  datatype Rendered<T> = Header | Footer | PageItem(item: T) | ButtonItem(button: Button) | Background | Nothing

  /** `Valid.checkBoolean` failing in `getCurrentPageItems`. */
  datatype Error = NoSuchPage(currentPage: int, pageCount: nat)

  /**
   * The page size chosen from the item count: `rows * 9` when rows are
   * given, otherwise the smallest of 9, 18, 27 and 36 that holds every item,
   * or 45.
   */
  function AutoPageSize(rows: Option<int>, items: nat): (r: int)
    ensures rows.Some? ==> r == rows.value * 9
    ensures rows.None? ==> r % 9 == 0 && 9 <= r <= 45
    ensures rows.None? && items <= 36 ==> items <= r && (r == 9 || r - 9 < items)
    ensures rows.None? && items > 36 ==> r == 45
  {
    if rows.Some? then rows.value * 9
    else if items <= 9 then 9
    else if items <= 9 * 2 then 9 * 2
    else if items <= 9 * 3 then 9 * 3
    else if items <= 9 * 4 then 9 * 4
    else 9 * 5
  }

  /** The menu size: an extra row for the buttons when there are pages and room for it. */
  function MenuSize(autoPageSize: int, pageCount: nat): (r: int)
    ensures r == autoPageSize + 9 <==> autoPageSize != 54 && pageCount > 1
    ensures r == autoPageSize <==> !(autoPageSize != 54 && pageCount > 1)
  {
    var addExtraRow := if autoPageSize != 9 * 6 && pageCount > 1 then 9 else 0;
    addExtraRow + autoPageSize
  }

  function PreviousButtonSlot(size: int): int { size - 6 }

  function NextButtonSlot(size: int): int { size - 4 }

  /** The footer slots: the last nine, from the last one down, without the two button slots. */
  method ComputeBottomSlots(size: int) returns (slots: seq<int>)
    ensures |slots| == 7
    ensures forall x :: x in slots <==>
      size - 9 <= x < size && x != PreviousButtonSlot(size) && x != NextButtonSlot(size)
    ensures forall i, j :: 0 <= i < j < |slots| ==> slots[i] > slots[j]
  {
    slots := [];
    for i := 1 to 10
      invariant forall x :: x in slots <==>
        size - i < x < size && x != PreviousButtonSlot(size) && x != NextButtonSlot(size)
      invariant forall a, b :: 0 <= a < b < |slots| ==> slots[a] > slots[b]
      invariant forall a :: 0 <= a < |slots| ==> slots[a] > size - i
      invariant |slots| == if i <= 4 then i - 1 else if i <= 6 then i - 2 else i - 3
    {
      if size - i == PreviousButtonSlot(size) || size - i == NextButtonSlot(size) {
        continue;
      }
      slots := slots + [size - i];
    }
  }

  /** `MathUtil.range`: the value clamped to the bounds, `min(max(value, lo), hi)`. */
  function Range(value: int, lo: int, hi: int): int {
    var atLeast := if value > lo then value else lo;
    if atLeast < hi then atLeast else hi
  }

  /** The page after a click on "previous": it moves only when the page is above 1. */
  function PreviousPage(current: int, pageCount: nat): int {
    if current > 1 then Range(current - 1, 1, pageCount) else current
  }

  /** The page after a click on "next": it moves only when the page is below the count. */
  function NextPage(current: int, pageCount: nat): int {
    if current < pageCount then Range(current + 1, 1, pageCount) else current
  }

  /**
   * Within the pages, "previous" steps back one page and "next" forward
   * one, staying within [1, pageCount]; at the first (last) page the button
   * does nothing, and the two clicks undo each other.
   */
  lemma Navigation(current: int, pageCount: nat)
    requires 1 <= current <= pageCount
    ensures 1 <= PreviousPage(current, pageCount) <= pageCount
    ensures 1 <= NextPage(current, pageCount) <= pageCount
    ensures PreviousPage(current, pageCount) == if current > 1 then current - 1 else current
    ensures NextPage(current, pageCount) == if current < pageCount then current + 1 else current
    ensures current > 1 ==> NextPage(PreviousPage(current, pageCount), pageCount) == current
    ensures current < pageCount ==> PreviousPage(NextPage(current, pageCount), pageCount) == current
  {
  }

  /** The title with ` &8{current}/{total}` appended when numbering is on and there are several pages. */
  function CompileTitle(title: string, addPageNumbers: bool, currentPage: int, pageCount: nat): (r: string)
    ensures addPageNumbers && pageCount > 1 ==>
      r == title + " &8" + IntToString(currentPage) + "/" + IntToString(pageCount)
    ensures !(addPageNumbers && pageCount > 1) ==> r == title
    ensures StartsWith(r, title)
  {
    var canAddNumbers := addPageNumbers && pageCount > 1;
    title + (if canAddNumbers then " &8" + IntToString(currentPage) + "/" + IntToString(pageCount) else "")
  }

  class Menu<T> {
    const settings: Settings
    const size: int
    var pages: map<int, seq<Option<T>>>
    var currentPage: int
    var prevButton: Button
    var nextButton: Button
    const bottomSlots: seq<int>

    /** The buttons match the page state they were formed from. */
    predicate Valid()
      reads this
    {
      && prevButton == (if |pages| > 1 then PreviousButton(currentPage > 1) else EmptyButton)
      && nextButton == (if |pages| > 1 then NextButton(currentPage < |pages|) else EmptyButton)
    }

    /**
     * The constructor's arithmetic: page one is current, a 54-slot page is
     * refilled at 45 items when there are several pages, the size gets an
     * extra row when needed, and the footer slots are computed.
     * `fillPages` is `Common.fillPages`, splitting the items into numbered pages.
     */
    constructor (settings: Settings, rows: Option<int>, itemsPerPage: int, items: seq<Option<T>>,
                 fillPages: (int, seq<Option<T>>) -> map<int, seq<Option<T>>>)
      ensures Valid()
      ensures currentPage == 1 && this.settings == settings
      ensures pages == if |fillPages(itemsPerPage, items)| > 1 && itemsPerPage == 54
        then fillPages(itemsPerPage - 9, items) else fillPages(itemsPerPage, items)
      ensures size == MenuSize(AutoPageSize(rows, |items|), |pages|)
      ensures forall x :: x in bottomSlots <==>
        size - 9 <= x < size && x != PreviousButtonSlot(size) && x != NextButtonSlot(size)
    {
      var autoPageSize := AutoPageSize(rows, |items|);
      this.settings := settings;
      currentPage := 1;
      var filled := fillPages(itemsPerPage, items);
      if |filled| > 1 && itemsPerPage == 54 {
        filled := fillPages(itemsPerPage - 9, items);
      }
      pages := filled;
      var menuSize := MenuSize(autoPageSize, |filled|);
      size := menuSize;
      prevButton := if |filled| > 1 then PreviousButton(false) else EmptyButton;
      nextButton := if |filled| > 1 then NextButton(1 < |filled|) else EmptyButton;
      var slots := ComputeBottomSlots(menuSize);
      bottomSlots := slots;
    }

    /** `getCurrentPageItems`: the current page's list; a page missing from the map fails. */
    function CurrentPageItems(): (r: Result<seq<Option<T>>, Error>)
      reads this
      ensures r.Ok? <==> currentPage - 1 in pages
      ensures r.Ok? ==> r.value == pages[currentPage - 1]
    {
      if currentPage - 1 in pages then Ok(pages[currentPage - 1])
      else Err(NoSuchPage(currentPage, |pages|))
    }

    /** The header row covers the slot. */
    predicate InHeader(slot: int)
      reads this
    {
      settings.useHeader && 0 <= slot <= 8
    }

    /** The footer covers the slot. */
    predicate InFooter(slot: int)
      reads this
    {
      settings.useFooter && slot in bottomSlots
    }

    /** The current page holds an item for the slot. */
    predicate PageCovers(slot: int)
      reads this
    {
      var index := slot - settings.startingSlot;
      && slot >= settings.startingSlot && CurrentPageItems().Ok?
      && index < |CurrentPageItems().value| && CurrentPageItems().value[index].Some?
    }

    /**
     * `getItemAt`: header slots first, then footer slots, then the page item
     * at `slot - startingSlot`, then the two buttons, then the background.
     */
    function GetItemAt(slot: int): (r: Result<Rendered<T>, Error>)
      reads this
      ensures InHeader(slot) ==> r == Ok(Header)
      ensures r == Ok(Footer) <==> !InHeader(slot) && InFooter(slot)
      ensures r.Err? <==>
        !InHeader(slot) && !InFooter(slot) && slot >= settings.startingSlot && CurrentPageItems().Err?
      ensures r.Err? ==> r.error == CurrentPageItems().error
      ensures !InHeader(slot) && !InFooter(slot) && PageCovers(slot) ==>
        r == Ok(PageItem(CurrentPageItems().value[slot - settings.startingSlot].value))
      ensures r.Ok? && r.value.PageItem? ==>
        var index := slot - settings.startingSlot;
        CurrentPageItems().Ok? && 0 <= index < |CurrentPageItems().value|
        && CurrentPageItems().value[index] == Some(r.value.item)
      ensures (!InHeader(slot) && !InFooter(slot) && !PageCovers(slot)
               && (slot < settings.startingSlot || CurrentPageItems().Ok?)) ==>
        && (slot == PreviousButtonSlot(size) ==> r == Ok(ButtonItem(prevButton)))
        && (slot != PreviousButtonSlot(size) && slot == NextButtonSlot(size) ==> r == Ok(ButtonItem(nextButton)))
        && (slot != PreviousButtonSlot(size) && slot != NextButtonSlot(size) ==>
              r == Ok(if settings.useBackground then Background else Nothing))
      ensures r == Ok(ButtonItem(prevButton)) && slot != PreviousButtonSlot(size) ==>
        slot == NextButtonSlot(size) && nextButton == prevButton
      ensures r.Ok? && (r.value.Background? || r.value.Nothing?) ==>
        slot != PreviousButtonSlot(size) && slot != NextButtonSlot(size)
        && (r.value.Background? <==> settings.useBackground)
    {
      if InHeader(slot) then Ok(Header)
      else if InFooter(slot) then Ok(Footer)
      else
        var index := slot - settings.startingSlot;
        if slot >= settings.startingSlot && CurrentPageItems().Err? then Err(CurrentPageItems().error)
        else if slot >= settings.startingSlot && index < |CurrentPageItems().value|
             && CurrentPageItems().value[index].Some? then
          Ok(PageItem(CurrentPageItems().value[index].value))
        else if slot == PreviousButtonSlot(size) then Ok(ButtonItem(prevButton))
        else if slot == NextButtonSlot(size) then Ok(ButtonItem(nextButton))
        else if settings.useBackground then Ok(Background)
        else Ok(Nothing)
    }

    /** `setButtons`: forms the buttons again from the current page. */
    method SetButtons()
      modifies this
      ensures Valid()
      ensures pages == old(pages) && currentPage == old(currentPage)
    {
      var hasPages := |pages| > 1;
      prevButton := if hasPages then PreviousButton(currentPage > 1) else EmptyButton;
      nextButton := if hasPages then NextButton(currentPage < |pages|) else EmptyButton;
    }

    /** A click on the previous button; a page change re-forms the buttons. */
    method ClickPrevious()
      requires Valid()
      modifies this
      ensures Valid() && pages == old(pages)
      ensures currentPage == if old(prevButton) == PreviousButton(true)
        then PreviousPage(old(currentPage), |pages|) else old(currentPage)
    {
      if prevButton.PreviousButton? && prevButton.canGo {
        currentPage := Range(currentPage - 1, 1, |pages|);
        SetButtons();
      }
    }

    /** A click on the next button; a page change re-forms the buttons. */
    method ClickNext()
      requires Valid()
      modifies this
      ensures Valid() && pages == old(pages)
      ensures currentPage == if old(nextButton) == NextButton(true)
        then NextPage(old(currentPage), |pages|) else old(currentPage)
    {
      if nextButton.NextButton? && nextButton.canGo {
        currentPage := Range(currentPage + 1, 1, |pages|);
        SetButtons();
      }
    }

    /** `compileTitle0`. */
    function Title(title: string): string
      reads this
    {
      CompileTitle(title, settings.addPageNumbers, currentPage, |pages|)
    }
  }
}
